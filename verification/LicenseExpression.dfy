/** The license expression recogniser of scripts/compiled-binary-licenses.ts, for any set of permissive license ids. */
module LicenseExpression {
  import opened Prelude

  // ---------------------------------------------------------------- the grammar

  /** P = "(" E ")" | a permissive id;  E = P ((OR | AND) P)*. */
  datatype Primary = Paren(inner: Compound) | Leaf(id: string)

  datatype Compound = One(first: Primary) | More(first: Primary, op: string, rest: Compound)

  predicate ValidPrimary(permissive: set<string>, p: Primary) {
    match p
    case Paren(inner) => ValidCompound(permissive, inner)
    case Leaf(id) => id in permissive && id != "("
  }

  predicate ValidCompound(permissive: set<string>, e: Compound) {
    match e
    case One(first) => ValidPrimary(permissive, first)
    case More(first, op, rest) => ValidPrimary(permissive, first) && (op == "OR" || op == "AND") && ValidCompound(permissive, rest)
  }

  function PrimaryTokens(p: Primary): (r: seq<string>)
    ensures r != []
  {
    match p
    case Paren(inner) => ["("] + CompoundTokens(inner) + [")"]
    case Leaf(id) => [id]
  }

  function CompoundTokens(e: Compound): (r: seq<string>)
    ensures r != []
  {
    match e
    case One(first) => PrimaryTokens(first)
    case More(first, op, rest) => PrimaryTokens(first) + [op] + CompoundTokens(rest)
  }

  /** The token lists of the grammar. */
  ghost predicate InLanguage(permissive: set<string>, tokens: seq<string>) {
    exists e :: ValidCompound(permissive, e) && CompoundTokens(e) == tokens
  }

  // ---------------------------------------------------------------- the parser as functions

  predicate OpAt(tokens: seq<string>, i: nat) {
    i < |tokens| && (tokens[i] == "OR" || tokens[i] == "AND")
  }

  /** The end of the primary that starts at `i`. */
  function EndOfPrimary(permissive: set<string>, tokens: seq<string>, i: nat): (r: Option<nat>)
    ensures r.Some? ==> i < r.value <= |tokens|
    decreases |tokens| - i, 0
  {
    if i >= |tokens| then None
    else if tokens[i] == "(" then
      var end := EndOfCompound(permissive, tokens, i + 1);
      if end.Some? && end.value < |tokens| && tokens[end.value] == ")" then Some(end.value + 1) else None
    else if tokens[i] in permissive then Some(i + 1)
    else None
  }

  function EndOfCompound(permissive: set<string>, tokens: seq<string>, i: nat): (r: Option<nat>)
    ensures r.Some? ==> i < r.value <= |tokens|
    decreases |tokens| - i, 2
  {
    var end := EndOfPrimary(permissive, tokens, i);
    if end.None? then None else EndOfRest(permissive, tokens, end.value)
  }

  /** The end of a run of operators and primaries. */
  function EndOfRest(permissive: set<string>, tokens: seq<string>, i: nat): (r: Option<nat>)
    requires i <= |tokens|
    ensures r.Some? ==> i <= r.value <= |tokens|
    decreases |tokens| - i, 1
  {
    if !OpAt(tokens, i) then Some(i) else
    var end := EndOfPrimary(permissive, tokens, i + 1);
    if end.None? then None else EndOfRest(permissive, tokens, end.value)
  }

  // ---------------------------------------------------------------- the parser

  /** The closures `primary` and `compound` over their shared `index`. */
  class Parser {
    const permissive: set<string>
    const tokens: seq<string>
    var index: nat

    constructor (permissive: set<string>, tokens: seq<string>)
      ensures this.permissive == permissive && this.tokens == tokens && index == 0
    {
      this.permissive, this.tokens, index := permissive, tokens, 0;
    }

    method ParsePrimary() returns (ok: bool)
      modifies this
      ensures ok <==> EndOfPrimary(permissive, tokens, old(index)).Some?
      ensures ok ==> Some(index) == EndOfPrimary(permissive, tokens, old(index))
      decreases |tokens| - index, 0
    {
      var token := if index < |tokens| then Some(tokens[index]) else None;
      index := index + 1;
      if token == Some("(") {
        var inner := ParseCompound();
        if !inner { return false; }
        var closing := if index < |tokens| then Some(tokens[index]) else None;
        index := index + 1;
        return closing == Some(")");
      }
      return token.Some? && token.value in permissive;
    }

    method ParseCompound() returns (ok: bool)
      modifies this
      ensures ok <==> EndOfCompound(permissive, tokens, old(index)).Some?
      ensures ok ==> Some(index) == EndOfCompound(permissive, tokens, old(index))
      decreases |tokens| - index, 1
    {
      var first := ParsePrimary();
      if !first { return false; }
      while OpAt(tokens, index)
        invariant old(index) < index <= |tokens|
        invariant EndOfCompound(permissive, tokens, old(index)) == EndOfRest(permissive, tokens, index)
        decreases |tokens| - index
      {
        index := index + 1;
        var next := ParsePrimary();
        if !next { return false; }
      }
      return true;
    }
  }

  // ---------------------------------------------------------------- soundness and completeness

  lemma {:induction false} PrimarySound(permissive: set<string>, tokens: seq<string>, i: nat) returns (p: Primary)
    requires EndOfPrimary(permissive, tokens, i).Some?
    ensures ValidPrimary(permissive, p) && PrimaryTokens(p) == tokens[i..EndOfPrimary(permissive, tokens, i).value]
    decreases |tokens| - i, 0
  {
    if tokens[i] == "(" {
      var inner := CompoundSound(permissive, tokens, i + 1);
      p := Paren(inner);
    } else {
      p := Leaf(tokens[i]);
    }
  }

  lemma {:induction false} CompoundSound(permissive: set<string>, tokens: seq<string>, i: nat) returns (e: Compound)
    requires EndOfCompound(permissive, tokens, i).Some?
    ensures ValidCompound(permissive, e) && CompoundTokens(e) == tokens[i..EndOfCompound(permissive, tokens, i).value]
    decreases |tokens| - i, 1
  {
    var first := PrimarySound(permissive, tokens, i);
    var j := EndOfPrimary(permissive, tokens, i).value;
    if OpAt(tokens, j) {
      var rest := CompoundSound(permissive, tokens, j + 1);
      e := More(first, tokens[j], rest);
    } else {
      e := One(first);
    }
  }

  /** `part` occurs in `tokens` at `i`. */
  predicate OccursAt(tokens: seq<string>, i: nat, part: seq<string>) {
    i + |part| <= |tokens| && tokens[i..i + |part|] == part
  }

  lemma OccursSplit(tokens: seq<string>, i: nat, a: seq<string>, b: seq<string>)
    requires OccursAt(tokens, i, a + b)
    ensures OccursAt(tokens, i, a) && OccursAt(tokens, i + |a|, b)
  {
    var whole := tokens[i..i + |a| + |b|];
    assert whole[..|a|] == a && whole[|a|..] == b;
    assert tokens[i..i + |a|] == whole[..|a|] && tokens[i + |a|..i + |a| + |b|] == whole[|a|..];
  }

  lemma OperatorBetween(tokens: seq<string>, i: nat, a: seq<string>, op: string, b: seq<string>)
    requires OccursAt(tokens, i, a + [op] + b)
    ensures OccursAt(tokens, i, a) && OccursAt(tokens, i + |a| + 1, b) && tokens[i + |a|] == op
  {
    OccursSplit(tokens, i, a + [op], b);
    OccursSplit(tokens, i, a, [op]);
    var j := i + |a|;
    assert tokens[j] == tokens[j..j + 1][0];
  }

  lemma {:induction false} PrimaryComplete(permissive: set<string>, tokens: seq<string>, i: nat, p: Primary)
    requires ValidPrimary(permissive, p) && OccursAt(tokens, i, PrimaryTokens(p))
    ensures EndOfPrimary(permissive, tokens, i) == Some(i + |PrimaryTokens(p)|)
    decreases p
  {
    match p
    case Leaf(id) => assert tokens[i] == tokens[i..i + 1][0];
    case Paren(inner) =>
      var body := CompoundTokens(inner);
      OccursSplit(tokens, i, ["("] + body, [")"]);
      OccursSplit(tokens, i, ["("], body);
      assert tokens[i] == tokens[i..i + 1][0];
      var end := i + 1 + |body|;
      assert tokens[end] == tokens[end..end + 1][0];
      CompoundComplete(permissive, tokens, i + 1, inner);
  }

  lemma {:induction false} CompoundComplete(permissive: set<string>, tokens: seq<string>, i: nat, e: Compound)
    requires ValidCompound(permissive, e) && OccursAt(tokens, i, CompoundTokens(e))
    requires !OpAt(tokens, i + |CompoundTokens(e)|)
    ensures EndOfCompound(permissive, tokens, i) == Some(i + |CompoundTokens(e)|)
    decreases e
  {
    match e
    case One(first) => PrimaryComplete(permissive, tokens, i, first);
    case More(first, op, rest) =>
      var head := PrimaryTokens(first);
      var j := i + |head|;
      OperatorBetween(tokens, i, head, op, CompoundTokens(rest));
      PrimaryComplete(permissive, tokens, i, first);
      OverOperator(permissive, tokens, i, j);
      CompoundComplete(permissive, tokens, j + 1, rest);
  }

  /** Past an operator the parser goes on as if a compound started there. */
  lemma OverOperator(permissive: set<string>, tokens: seq<string>, i: nat, j: nat)
    requires EndOfPrimary(permissive, tokens, i) == Some(j) && OpAt(tokens, j)
    ensures EndOfCompound(permissive, tokens, i) == EndOfCompound(permissive, tokens, j + 1)
  {
  }

  /** The parser consumes the whole token list exactly when the grammar derives it. */
  lemma RecognisesLanguage(permissive: set<string>, tokens: seq<string>)
    ensures EndOfCompound(permissive, tokens, 0) == Some(|tokens|) <==> InLanguage(permissive, tokens)
  {
    if EndOfCompound(permissive, tokens, 0) == Some(|tokens|) {
      var e := CompoundSound(permissive, tokens, 0);
      assert tokens[0..|tokens|] == tokens;
    }
    if InLanguage(permissive, tokens) {
      var e :| ValidCompound(permissive, e) && CompoundTokens(e) == tokens;
      assert tokens[0..|tokens|] == tokens;
      CompoundComplete(permissive, tokens, 0, e);
    }
  }

  // ---------------------------------------------------------------- precedence and grouping do not matter

  /** An SPDX expression: identifiers, parentheses, and operators grouped in any way. */
  datatype Spdx = Id(id: string) | Group(inner: Spdx) | Binary(op: string, left: Spdx, right: Spdx)

  function Render(s: Spdx): seq<string> {
    match s
    case Id(id) => [id]
    case Group(inner) => ["("] + Render(inner) + [")"]
    case Binary(op, left, right) => Render(left) + [op] + Render(right)
  }

  predicate IsStructural(token: string) {
    token == "(" || token == ")" || token == "OR" || token == "AND"
  }

  predicate WellFormed(s: Spdx) {
    match s
    case Id(id) => !IsStructural(id)
    case Group(inner) => WellFormed(inner)
    case Binary(op, left, right) => (op == "OR" || op == "AND") && WellFormed(left) && WellFormed(right)
  }

  function Leaves(s: Spdx): set<string> {
    match s
    case Id(id) => {id}
    case Group(inner) => Leaves(inner)
    case Binary(_, left, right) => Leaves(left) + Leaves(right)
  }

  function Append(e: Compound, op: string, f: Compound): Compound {
    match e
    case One(first) => More(first, op, f)
    case More(first, inner, rest) => More(first, inner, Append(rest, op, f))
  }

  lemma {:induction false} AppendTokens(permissive: set<string>, e: Compound, op: string, f: Compound)
    requires ValidCompound(permissive, e) && (op == "OR" || op == "AND") && ValidCompound(permissive, f)
    ensures ValidCompound(permissive, Append(e, op, f))
    ensures CompoundTokens(Append(e, op, f)) == CompoundTokens(e) + [op] + CompoundTokens(f)
  {
    if e.More? {
      AppendTokens(permissive, e.rest, op, f);
      Associate(PrimaryTokens(e.first) + [e.op], CompoundTokens(e.rest), [op] + CompoundTokens(f));
    }
  }

  lemma Associate(a: seq<string>, b: seq<string>, c: seq<string>)
    ensures a + (b + c) == a + b + c
  {
  }

  function Flatten(s: Spdx): Compound {
    match s
    case Id(id) => One(Leaf(id))
    case Group(inner) => One(Paren(Flatten(inner)))
    case Binary(op, left, right) => Append(Flatten(left), op, Flatten(right))
  }

  lemma {:induction false} FlattenTokens(permissive: set<string>, s: Spdx)
    requires WellFormed(s) && Leaves(s) <= permissive
    ensures ValidCompound(permissive, Flatten(s)) && CompoundTokens(Flatten(s)) == Render(s)
  {
    match s
    case Id(_) =>
    case Group(inner) => FlattenTokens(permissive, inner);
    case Binary(op, left, right) =>
      FlattenTokens(permissive, left);
      FlattenTokens(permissive, right);
      AppendTokens(permissive, Flatten(left), op, Flatten(right));
  }

  lemma {:induction false} PrimaryAlphabet(permissive: set<string>, p: Primary, token: string)
    requires ValidPrimary(permissive, p) && token in PrimaryTokens(p)
    ensures IsStructural(token) || token in permissive
    decreases p
  {
    if p.Paren? && token in CompoundTokens(p.inner) {
      CompoundAlphabet(permissive, p.inner, token);
    }
  }

  lemma {:induction false} CompoundAlphabet(permissive: set<string>, e: Compound, token: string)
    requires ValidCompound(permissive, e) && token in CompoundTokens(e)
    ensures IsStructural(token) || token in permissive
    decreases e
  {
    if token in PrimaryTokens(e.first) {
      PrimaryAlphabet(permissive, e.first, token);
    } else if e.More? && token != e.op {
      CompoundAlphabet(permissive, e.rest, token);
    }
  }

  lemma {:induction false} LeafIsToken(s: Spdx, id: string)
    requires WellFormed(s) && id in Leaves(s)
    ensures id in Render(s) && !IsStructural(id)
  {
    match s
    case Id(_) =>
    case Group(inner) => LeafIsToken(inner, id);
    case Binary(_, left, right) =>
      if id in Leaves(left) {
        LeafIsToken(left, id);
      } else {
        LeafIsToken(right, id);
      }
  }

  /**
   * However AND, OR and parentheses group an expression (Annex D of SPDX 2.3), it is accepted exactly
   * when every license id in it is permissive.
   */
  lemma OnlyLeavesMatter(permissive: set<string>, s: Spdx)
    requires WellFormed(s)
    ensures InLanguage(permissive, Render(s)) <==> Leaves(s) <= permissive
  {
    if Leaves(s) <= permissive {
      FlattenTokens(permissive, s);
    }
    if InLanguage(permissive, Render(s)) {
      var e :| ValidCompound(permissive, e) && CompoundTokens(e) == Render(s);
      forall id | id in Leaves(s) ensures id in permissive {
        LeafIsToken(s, id);
        CompoundAlphabet(permissive, e, id);
      }
    }
  }

  // ---------------------------------------------------------------- tokens

  predicate IsWordChar(c: char) {
    'A' <= c <= 'Z' || 'a' <= c <= 'z' || '0' <= c <= '9' || c == '.' || c == '-'
  }

  /** The length of the longest word at the start of `s`. */
  function WordLength(s: string): (n: nat)
    ensures n <= |s| && (n < |s| ==> !IsWordChar(s[n]))
    ensures forall i | 0 <= i < n :: IsWordChar(s[i])
  {
    if s == "" || !IsWordChar(s[0]) then 0 else 1 + WordLength(s[1..])
  }

  /** `expression.match(/[A-Za-z0-9.-]+|\S/g) ?? []`. */
  function TokensOf(s: string): seq<string>
    decreases |s|
  {
    if s == "" then []
    else if IsSpace(s[0]) then TokensOf(s[1..])
    else if IsWordChar(s[0]) then [s[..WordLength(s)]] + TokensOf(s[WordLength(s)..])
    else [s[..1]] + TokensOf(s[1..])
  }

  predicate IsWord(t: string) {
    t != "" && forall c | c in t :: 'A' <= c <= 'Z' || 'a' <= c <= 'z' || '0' <= c <= '9' || c == '.' || c == '-'
  }

  predicate IsToken(t: string) {
    IsWord(t) || (|t| == 1 && !IsSpace(t[0]))
  }

  /**
   * The text is the tokens with white space or nothing around them, and two words never touch: no word is
   * cut and every character that is no white space is in a token.
   */
  predicate Splits(s: string, gaps: seq<string>, tokens: seq<string>)
    decreases |tokens|
  {
    && |gaps| == |tokens| + 1 && gaps[0] <= s && (forall c | c in gaps[0] :: IsSpace(c))
    && (if tokens == [] then s == gaps[0] else
        && IsToken(tokens[0]) && gaps[0] + tokens[0] <= s
        && Splits(s[|gaps[0]| + |tokens[0]|..], gaps[1..], tokens[1..])
        && (|tokens| > 1 && gaps[1] == "" && IsWord(tokens[0]) ==> !IsWord(tokens[1])))
  }

  lemma {:induction false} TokensSplit(s: string) returns (gaps: seq<string>)
    ensures Splits(s, gaps, TokensOf(s))
    decreases |s|
  {
    if s == "" {
      gaps := [""];
    } else if IsSpace(s[0]) {
      var rest := TokensSplit(s[1..]);
      gaps := [[s[0]] + rest[0]] + rest[1..];
      SpaceFirst(s, rest, TokensOf(s));
    } else {
      var n := if IsWordChar(s[0]) then WordLength(s) else 1;
      var rest := TokensSplit(s[n..]);
      gaps := [""] + rest;
      TokenFirst(s, n, rest, TokensOf(s[n..]));
    }
  }

  lemma TokenFirst(s: string, n: nat, rest: seq<string>, tokens: seq<string>)
    requires s != "" && !IsSpace(s[0]) && n == (if IsWordChar(s[0]) then WordLength(s) else 1)
    requires n <= |s| && Splits(s[n..], rest, tokens)
    ensures Splits(s, [""] + rest, [s[..n]] + tokens)
  {
    var gaps, all := [""] + rest, [s[..n]] + tokens;
    assert gaps[1..] == rest && all[1..] == tokens && gaps[0] + all[0] == s[..n];
    assert IsToken(s[..n]) && (IsWord(s[..n]) ==> IsWordChar(s[0])) by {
      assert n > 0 && s[..n][0] in s[..n];
    }
    if tokens != [] && rest[0] == "" {
      NextIsFirst(s[n..], rest, tokens);
      assert s[n..][0] == s[n];
    }
  }

  lemma SpaceFirst(s: string, rest: seq<string>, tokens: seq<string>)
    requires s != "" && IsSpace(s[0]) && Splits(s[1..], rest, tokens)
    ensures Splits(s, [[s[0]] + rest[0]] + rest[1..], tokens)
  {
    var gaps := [[s[0]] + rest[0]] + rest[1..];
    assert gaps[1..] == rest[1..] && s == [s[0]] + s[1..];
    if tokens != [] {
      assert gaps[0] + tokens[0] == [s[0]] + (rest[0] + tokens[0]);
      assert s[|gaps[0]| + |tokens[0]|..] == s[1..][|rest[0]| + |tokens[0]|..];
    }
  }

  /** Without white space before it, the first token starts with the first character. */
  lemma NextIsFirst(s: string, gaps: seq<string>, tokens: seq<string>)
    requires Splits(s, gaps, tokens) && tokens != [] && gaps[0] == ""
    ensures s != "" && tokens[0][0] == s[0] && (IsWord(tokens[0]) <==> IsWordChar(s[0]))
  {
    var t := tokens[0];
    assert gaps[0] + t == t && t[0] in t;
    assert |t| == 1 ==> forall c | c in t :: c == t[0];
  }

  /** A text has one splitting: its tokens are the only ones. */
  lemma {:induction false} SplitsOnce(s: string, gaps: seq<string>, tokens: seq<string>)
    requires Splits(s, gaps, tokens)
    ensures TokensOf(s) == tokens
    decreases |s|
  {
    if gaps[0] != "" {
      SpaceDropped(s, gaps, tokens);
      SplitsOnce(s[1..], [gaps[0][1..]] + gaps[1..], tokens);
    } else if tokens != [] {
      var rest := TokenDropped(s, gaps, tokens);
      SplitsOnce(rest, gaps[1..], tokens[1..]);
      assert tokens == [tokens[0]] + tokens[1..];
    }
  }

  /** Without white space before it, the first token is taken. */
  lemma TokenDropped(s: string, gaps: seq<string>, tokens: seq<string>) returns (rest: string)
    requires Splits(s, gaps, tokens) && tokens != [] && gaps[0] == ""
    ensures |rest| < |s| && Splits(rest, gaps[1..], tokens[1..]) && TokensOf(s) == [tokens[0]] + TokensOf(rest)
  {
    rest := s[|tokens[0]|..];
    assert gaps[0] + tokens[0] == tokens[0] && |gaps[0]| == 0;
    TokenTaken(s, gaps, tokens, rest);
  }

  lemma TokenTaken(s: string, gaps: seq<string>, tokens: seq<string>, rest: string)
    requires Splits(s, gaps, tokens) && tokens != [] && gaps[0] == "" && s == tokens[0] + rest
    requires Splits(rest, gaps[1..], tokens[1..])
    ensures s != "" && TokensOf(s) == [tokens[0]] + TokensOf(rest)
  {
    var t := tokens[0];
    assert s[0] == t[0] && t[0] in t;
    assert s[..|t|] == t && s[|t|..] == rest;
    if IsWord(t) {
      WordEnds(rest, gaps, tokens);
      WordStops(t, rest);
    }
  }

  /** What follows a word is no part of it. */
  lemma WordEnds(rest: string, gaps: seq<string>, tokens: seq<string>)
    requires tokens != [] && |gaps| == |tokens| + 1 && Splits(rest, gaps[1..], tokens[1..])
    requires |tokens| > 1 && gaps[1] == "" ==> !IsWord(tokens[1])
    ensures rest == "" || !IsWordChar(rest[0])
  {
    if gaps[1] != "" {
      assert gaps[1][0] in gaps[1] && rest[0] == gaps[1][0];
    } else if |tokens| > 1 {
      NextIsFirst(rest, gaps[1..], tokens[1..]);
    }
  }

  lemma SpaceDropped(s: string, gaps: seq<string>, tokens: seq<string>)
    requires Splits(s, gaps, tokens) && gaps[0] != ""
    ensures s != "" && Splits(s[1..], [gaps[0][1..]] + gaps[1..], tokens) && TokensOf(s) == TokensOf(s[1..])
  {
    assert s[0] == gaps[0][0] && gaps[0][0] in gaps[0];
    var rest := [gaps[0][1..]] + gaps[1..];
    assert rest[1..] == gaps[1..] && gaps[0] == [gaps[0][0]] + gaps[0][1..];
    if tokens != [] {
      assert gaps[0] + tokens[0] == [gaps[0][0]] + (rest[0] + tokens[0]);
      assert s[|gaps[0]| + |tokens[0]|..] == s[1..][|rest[0]| + |tokens[0]|..];
    }
  }

  lemma {:induction false} WordStops(t: string, s: string)
    requires forall c | c in t :: IsWordChar(c)
    requires s == "" || !IsWordChar(s[0])
    ensures WordLength(t + s) == |t|
  {
    if t == "" {
      assert t + s == s;
    } else {
      assert (t + s)[1..] == t[1..] + s;
      WordStops(t[1..], s);
    }
  }

  /** Writing tokens with a space between them and reading them again gives the same tokens. */
  lemma {:induction false} TokensRoundTrip(tokens: seq<string>)
    requires forall t | t in tokens :: IsToken(t)
    ensures TokensOf(Join(tokens, " ")) == tokens
  {
    if tokens != [] {
      var t := tokens[0];
      assert t in tokens;
      TokensRoundTrip(tokens[1..]);
      var s := if |tokens| == 1 then "" else " " + Join(tokens[1..], " ");
      assert Join(tokens, " ") == t + s;
      assert s != "" ==> s[1..] == Join(tokens[1..], " ");
      assert (t + s)[0] == t[0] && t[0] in t;
      FirstToken(t, s);
      assert TokensOf(s) == TokensOf(Join(tokens[1..], " ")) == tokens[1..];
    }
  }

  lemma FirstToken(t: string, s: string)
    requires IsToken(t) && (s == "" || s[0] == ' ')
    ensures TokensOf(t + s) == [t] + TokensOf(s)
  {
    assert (t + s)[0] == t[0] && t[0] in t;
    if IsWordChar(t[0]) {
      if |t| == 1 {
        assert forall c | c in t :: c == t[0];
      }
      WordStops(t, s);
      assert (t + s)[..|t|] == t && (t + s)[|t|..] == s;
    } else {
      assert (t + s)[..1] == t && (t + s)[1..] == s;
    }
  }

  /** The text splits into tokens that the grammar derives. */
  ghost predicate Derives(permissive: set<string>, expression: string) {
    exists gaps, tokens :: Splits(expression, gaps, tokens) && InLanguage(permissive, tokens)
  }

  lemma DerivesTokens(permissive: set<string>, expression: string)
    ensures Derives(permissive, expression) <==> InLanguage(permissive, TokensOf(expression))
  {
    var gaps := TokensSplit(expression);
    if Derives(permissive, expression) {
      var gaps, tokens :| Splits(expression, gaps, tokens) && InLanguage(permissive, tokens);
      SplitsOnce(expression, gaps, tokens);
    }
  }

  /** `isPermissiveLicense`. */
  method IsPermissiveLicense(permissive: set<string>, expression: string) returns (ok: bool)
    ensures ok <==> Derives(permissive, expression)
    ensures ok <==> InLanguage(permissive, TokensOf(expression))
  {
    DerivesTokens(permissive, expression);
    var tokens := TokensOf(expression);
    var parser := new Parser(permissive, tokens);
    var parsed := parser.ParseCompound();
    RecognisesLanguage(permissive, tokens);
    return parsed && parser.index == |tokens|;
  }
}
