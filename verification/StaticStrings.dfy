/**
 * The static specifier evaluator of scripts/module-edge-scan.ts: a partial evaluator for string
 * expressions whose identifiers are bound by lexically scoped `const` declarations.
 *
 * A syntax node is identified by its path from the source file, so a node occurring twice in the
 * file has two identities, as it does in the TypeScript AST.
 */
module StaticStrings {
  import opened Prelude

  type Path = seq<nat>

  datatype Kind =
    | Scope                                                 // the seven kinds of `isConstScopeBoundary`
    | ConstList                                             // a `const` variable declaration list
    | Declaration(name: Option<string>, init: Option<nat>)  // `init`: index of the initializer child
    | Text(text: string)                                    // string literal, template without substitution
    | Paren
    | Plus
    | Template(head: string, tails: seq<string>)
    | Ident(id: string)
    | Call                                                  // callee, then arguments
    | Member(property: string)                              // object, then property name
    | ArrayLiteral
    | Other

  datatype Node = Node(kind: Kind, kids: seq<Node>)

  predicate Valid(n: Node, p: Path)
    decreases p
  {
    p == [] || (p[0] < |n.kids| && Valid(n.kids[p[0]], p[1..]))
  }

  function At(n: Node, p: Path): Node
    requires Valid(n, p)
    decreases p
  {
    if p == [] then n else At(n.kids[p[0]], p[1..])
  }

  lemma {:induction false} ChildAt(n: Node, p: Path, i: nat)
    requires Valid(n, p)
    ensures Valid(n, p + [i]) <==> i < |At(n, p).kids|
    ensures i < |At(n, p).kids| ==> At(n, p + [i]) == At(n, p).kids[i]
    decreases p
  {
    if p == [] {
      assert p + [i] == [i] && [i][1..] == [];
      assert Valid(n, [i]) <==> i < |n.kids| && Valid(n.kids[i], []);
    } else {
      assert (p + [i])[1..] == p[1..] + [i];
      ChildAt(n.kids[p[0]], p[1..], i);
    }
  }

  lemma {:induction false} PrefixValid(n: Node, p: Path, k: nat)
    requires Valid(n, p) && k <= |p|
    ensures Valid(n, p[..k])
    decreases k
  {
    if k > 0 {
      assert p[..k][1..] == p[1..][..k - 1];
      PrefixValid(n.kids[p[0]], p[1..], k - 1);
    }
  }

  /** Every node of the tree: the finite universe that bounds the `seen` set. */
  ghost function AllPaths(n: Node): set<Path> {
    {[]} + set i: nat, q | 0 <= i < |n.kids| && q in AllPaths(n.kids[i]) :: [i] + q
  }

  lemma {:induction false} ValidIsListed(n: Node, p: Path)
    requires Valid(n, p)
    ensures p in AllPaths(n)
    decreases p
  {
    if p != [] {
      ValidIsListed(n.kids[p[0]], p[1..]);
      assert p == [p[0]] + p[1..];
    }
  }

  // ---------------------------------------------------------------- the evaluator

  type Env = Path -> Option<Path>

  ghost predicate EnvOk(root: Node, env: Env) {
    forall p :: env(p).Some? ==> Valid(root, env(p).value)
  }

  predicate IsJoinCall(n: Node) {
    && n.kind.Call? && |n.kids| >= 1
    && n.kids[0].kind == Member("join") && |n.kids[0].kids| >= 1
    && n.kids[0].kids[0].kind.ArrayLiteral?
  }

  /** Each template span contributes its value and then its literal text. */
  function Weave(head: string, values: seq<string>, tails: seq<string>): string
    requires |values| == |tails|
  {
    if values == [] then head
    else Weave(head, values[..|values| - 1], tails[..|tails| - 1]) + values[|values| - 1] + tails[|tails| - 1]
  }

  lemma JoinArrayAt(root: Node, p: Path)
    requires Valid(root, p) && IsJoinCall(At(root, p))
    ensures Valid(root, p + [0, 0])
    ensures At(root, p + [0, 0]) == At(root, p).kids[0].kids[0]
  {
    ChildAt(root, p, 0);
    ChildAt(root, p + [0], 0);
    assert p + [0] + [0] == p + [0, 0];
  }

  lemma SeenShrinks(root: Node, seen: set<Path>, q: Path)
    requires Valid(root, q) && q !in seen
    ensures |AllPaths(root) - (seen + {q})| < |AllPaths(root) - seen|
  {
    ValidIsListed(root, q);
    OneLessUnseen(AllPaths(root), seen, q);
  }

  lemma OneLessUnseen(all: set<Path>, seen: set<Path>, q: Path)
    requires q in all && q !in seen
    ensures |all - (seen + {q})| < |all - seen|
  {
    assert all - seen == (all - (seen + {q})) + {q};
  }

  /** What `resolveStaticString` returns for the expression at `p`. */
  function Eval(root: Node, env: Env, p: Path, seen: set<Path>): Option<string>
    requires EnvOk(root, env) && Valid(root, p)
    decreases |AllPaths(root) - seen|, At(root, p), |At(root, p).kids| + 1, 1
  {
    var n := At(root, p);
    match n.kind
    case Text(text) => Some(text)
    case Paren =>
      if |n.kids| != 1 then None else
      ChildAt(root, p, 0); Eval(root, env, p + [0], seen)
    case Plus =>
      if |n.kids| != 2 then None else
      ChildAt(root, p, 0); ChildAt(root, p, 1);
      var left := Eval(root, env, p + [0], seen);
      if left.None? then None else
      var right := Eval(root, env, p + [1], seen);
      if right.None? then None else Some(left.value + right.value)
    case Template(head, tails) =>
      if |n.kids| != |tails| then None else EvalTemplate(root, env, p, seen)
    case Ident(_) =>
      var initializer := env(p);
      if initializer.None? || initializer.value in seen then None else
      SeenShrinks(root, seen, initializer.value);
      Eval(root, env, initializer.value, seen + {initializer.value})
    case Call =>
      if !IsJoinCall(n) then None else EvalJoin(root, env, p, seen)
    case _ => None
  }

  function EvalTemplate(root: Node, env: Env, p: Path, seen: set<Path>): Option<string>
    requires EnvOk(root, env) && Valid(root, p)
    requires At(root, p).kind.Template? && |At(root, p).kids| == |At(root, p).kind.tails|
    decreases |AllPaths(root) - seen|, At(root, p), |At(root, p).kids| + 1, 0
  {
    var values := EvalKids(root, env, p, 0, seen);
    if values.None? then None else Some(Weave(At(root, p).kind.head, values.value, At(root, p).kind.tails))
  }

  /** `[...].join(separator)`, whose separator defaults to a comma. */
  function EvalJoin(root: Node, env: Env, p: Path, seen: set<Path>): Option<string>
    requires EnvOk(root, env) && Valid(root, p) && At(root, p).kind.Call? && IsJoinCall(At(root, p))
    decreases |AllPaths(root) - seen|, At(root, p), |At(root, p).kids| + 1, 0
  {
    JoinArrayAt(root, p); ChildAt(root, p, 1);
    var separator := if |At(root, p).kids| == 1 then Some(",") else Eval(root, env, p + [1], seen);
    if separator.None? then None else
    var parts := EvalKids(root, env, p + [0, 0], 0, seen);
    if parts.None? then None else Some(Join(parts.value, separator.value))
  }

  /** The values of the children from index `i` on, when every one of them has a value. */
  function EvalKids(root: Node, env: Env, p: Path, i: nat, seen: set<Path>): (r: Option<seq<string>>)
    requires EnvOk(root, env) && Valid(root, p) && i <= |At(root, p).kids|
    ensures r.Some? ==> |r.value| == |At(root, p).kids| - i
    decreases |AllPaths(root) - seen|, At(root, p), |At(root, p).kids| - i, 0
  {
    if i == |At(root, p).kids| then Some([]) else
    ChildAt(root, p, i);
    var first := Eval(root, env, p + [i], seen);
    if first.None? then None else
    var rest := EvalKids(root, env, p, i + 1, seen);
    if rest.None? then None else Some([first.value] + rest.value)
  }

  // ---------------------------------------------------------------- the meaning of an expression

  function KidPaths(p: Path, n: nat): (r: seq<Path>)
    ensures |r| == n && forall i | 0 <= i < n :: r[i] == p + [i]
  {
    seq(n, i => p + [i])
  }

  /** The expressions that give the expression at `p` its value; none when its form is not evaluable. */
  function Operands(root: Node, env: Env, p: Path): Option<seq<Path>>
    requires Valid(root, p)
  {
    var n := At(root, p);
    match n.kind
    case Text(_) => Some([])
    case Paren => if |n.kids| == 1 then Some([p + [0]]) else None
    case Plus => if |n.kids| == 2 then Some([p + [0], p + [1]]) else None
    case Template(_, tails) => if |n.kids| == |tails| then Some(KidPaths(p, |tails|)) else None
    case Ident(_) => if env(p).Some? then Some([env(p).value]) else None
    case Call =>
      if !IsJoinCall(n) then None else
      var elements := KidPaths(p + [0, 0], |n.kids[0].kids[0].kids|);
      Some(if |n.kids| == 1 then elements else [p + [1]] + elements)
    case _ => None
  }

  /** The value of an expression from the values of its operands. */
  function Combine(n: Node, values: seq<string>): string {
    match n.kind
    case Text(text) => text
    case Plus => if |values| == 2 then values[0] + values[1] else ""
    case Template(head, tails) => if |values| == |tails| then Weave(head, values, tails) else ""
    case Call => if |n.kids| == 1 then Join(values, ",") else if values == [] then "" else Join(values[1..], values[0])
    case _ => if |values| == 1 then values[0] else ""
  }

  /** A finite proof that the expression at `at` denotes `value`. It knows nothing of `seen`. */
  datatype Derivation = Derivation(at: Path, value: string, premises: seq<Derivation>)

  function Values(ds: seq<Derivation>): (r: seq<string>)
    ensures |r| == |ds|
  {
    seq(|ds|, i requires 0 <= i < |ds| => ds[i].value)
  }

  /** The last step of `d`: one premise for each operand, and the value they combine to. */
  predicate Rule(root: Node, env: Env, d: Derivation) {
    && Valid(root, d.at)
    && var operands := Operands(root, env, d.at);
    && operands.Some? && |operands.value| == |d.premises|
    && (forall i | 0 <= i < |d.premises| :: d.premises[i].at == operands.value[i])
    && d.value == Combine(At(root, d.at), Values(d.premises))
  }

  predicate Derives(root: Node, env: Env, d: Derivation) {
    Rule(root, env, d) && forall i | 0 <= i < |d.premises| :: Derives(root, env, d.premises[i])
  }

  ghost predicate Denotes(root: Node, env: Env, p: Path, value: string) {
    exists d :: Derives(root, env, d) && d.at == p && d.value == value
  }

  ghost function ProofOf(root: Node, env: Env, p: Path, value: string): (d: Derivation)
    requires Denotes(root, env, p, value)
    ensures Derives(root, env, d) && d.at == p && d.value == value
  {
    var d :| Derives(root, env, d) && d.at == p && d.value == value;
    d
  }

  /** A node has at most one derivation, so at most one value. */
  lemma {:induction false} DerivationUnique(root: Node, env: Env, d: Derivation, e: Derivation)
    requires Derives(root, env, d) && Derives(root, env, e) && d.at == e.at
    ensures d == e
    decreases d
  {
    forall i | 0 <= i < |d.premises| ensures d.premises[i] == e.premises[i] {
      DerivationUnique(root, env, d.premises[i], e.premises[i]);
    }
    assert d.premises == e.premises;
  }

  function Size(d: Derivation): nat {
    1 + SizeAll(d.premises)
  }

  function SizeAll(ds: seq<Derivation>): nat {
    if ds == [] then 0 else Size(ds[0]) + SizeAll(ds[1..])
  }

  lemma {:induction false} PremiseSmaller(ds: seq<Derivation>, i: nat)
    requires i < |ds|
    ensures Size(ds[i]) <= SizeAll(ds)
  {
    if i > 0 {
      PremiseSmaller(ds[1..], i - 1);
    }
  }

  // One step of the evaluator, other than at an identifier, is the rule over its operands.

  ghost predicate AllEval(root: Node, env: Env, ps: seq<Path>, seen: set<Path>, values: seq<string>)
    requires EnvOk(root, env)
  {
    |values| == |ps| && forall i | 0 <= i < |ps| :: Valid(root, ps[i]) && Eval(root, env, ps[i], seen) == Some(values[i])
  }

  lemma {:induction false} OperandInside(root: Node, env: Env, p: Path, i: nat)
    requires Valid(root, p) && !At(root, p).kind.Ident?
    requires Operands(root, env, p).Some? && i < |Operands(root, env, p).value|
    ensures var q := Operands(root, env, p).value[i]; Valid(root, q) && At(root, q) < At(root, p)
  {
    var n := At(root, p);
    if n.kind.Call? {
      JoinArrayAt(root, p);
      ChildAt(root, p, 1);
      ChildAt(root, p + [0, 0], if |n.kids| == 1 then i else if i > 0 then i - 1 else 0);
    } else {
      ChildAt(root, p, i);
    }
  }

  lemma {:induction false} KidsDown(root: Node, env: Env, p: Path, i: nat, seen: set<Path>, j: nat)
    requires EnvOk(root, env) && Valid(root, p) && i <= j < |At(root, p).kids|
    requires EvalKids(root, env, p, i, seen).Some?
    ensures Valid(root, p + [j])
    ensures Eval(root, env, p + [j], seen) == Some(EvalKids(root, env, p, i, seen).value[j - i])
    decreases j - i
  {
    ChildAt(root, p, i);
    if i < j {
      KidsDown(root, env, p, i + 1, seen, j);
    }
  }

  lemma {:induction false} KidsUp(root: Node, env: Env, p: Path, i: nat, seen: set<Path>, values: seq<string>)
    requires EnvOk(root, env) && Valid(root, p) && i <= |At(root, p).kids|
    requires AllEval(root, env, KidPaths(p, |At(root, p).kids|), seen, values)
    ensures EvalKids(root, env, p, i, seen) == Some(values[i..])
    decreases |values| - i
  {
    if i < |values| {
      var ps := KidPaths(p, |values|);
      assert ps[i] == p + [i];
      KidsUp(root, env, p, i + 1, seen, values);
      assert values[i..] == [values[i]] + values[i + 1..];
    }
  }

  lemma AllEvalTail(root: Node, env: Env, p: Path, ps: seq<Path>, seen: set<Path>, values: seq<string>)
    requires EnvOk(root, env) && AllEval(root, env, [p] + ps, seen, values)
    ensures AllEval(root, env, ps, seen, values[1..])
    ensures Valid(root, p) && Eval(root, env, p, seen) == Some(values[0])
  {
    forall i | 0 <= i < |ps|
      ensures Valid(root, ps[i]) && Eval(root, env, ps[i], seen) == Some(values[1..][i])
    {
      assert ps[i] == ([p] + ps)[i + 1];
    }
    assert p == ([p] + ps)[0];
  }

  lemma StepDown(root: Node, env: Env, p: Path, seen: set<Path>) returns (values: seq<string>)
    requires EnvOk(root, env) && Valid(root, p) && !At(root, p).kind.Ident?
    requires Eval(root, env, p, seen).Some?
    ensures Operands(root, env, p).Some?
    ensures AllEval(root, env, Operands(root, env, p).value, seen, values)
    ensures Eval(root, env, p, seen).value == Combine(At(root, p), values)
  {
    var n := At(root, p);
    match n.kind
    case Text(_) => values := [];
    case Paren =>
      ChildAt(root, p, 0);
      values := [Eval(root, env, p + [0], seen).value];
    case Plus =>
      ChildAt(root, p, 0);
      ChildAt(root, p, 1);
      values := [Eval(root, env, p + [0], seen).value, Eval(root, env, p + [1], seen).value];
    case Template(_, _) =>
      values := EvalKids(root, env, p, 0, seen).value;
      forall i | 0 <= i < |n.kids| { KidsDown(root, env, p, 0, seen, i); }
    case Call => values := JoinDown(root, env, p, seen);
  }

  lemma JoinDown(root: Node, env: Env, p: Path, seen: set<Path>) returns (values: seq<string>)
    requires EnvOk(root, env) && Valid(root, p) && At(root, p).kind.Call? && IsJoinCall(At(root, p))
    requires EvalJoin(root, env, p, seen).Some?
    ensures Operands(root, env, p).Some?
    ensures AllEval(root, env, Operands(root, env, p).value, seen, values)
    ensures EvalJoin(root, env, p, seen).value == Combine(At(root, p), values)
  {
    JoinArrayAt(root, p);
    ChildAt(root, p, 1);
    values := EvalKids(root, env, p + [0, 0], 0, seen).value;
    forall i | 0 <= i < |values| { KidsDown(root, env, p + [0, 0], 0, seen, i); }
    if |At(root, p).kids| > 1 {
      var separator := Eval(root, env, p + [1], seen).value;
      AllEvalCons(root, env, p + [1], KidPaths(p + [0, 0], |values|), seen, separator, values);
      assert ([separator] + values)[1..] == values;
      values := [separator] + values;
    }
  }

  lemma AllEvalCons(root: Node, env: Env, p: Path, ps: seq<Path>, seen: set<Path>, value: string, values: seq<string>)
    requires EnvOk(root, env) && Valid(root, p) && Eval(root, env, p, seen) == Some(value)
    requires AllEval(root, env, ps, seen, values)
    ensures AllEval(root, env, [p] + ps, seen, [value] + values)
  {
    var qs, vs := [p] + ps, [value] + values;
    forall i | 0 <= i < |qs| ensures Valid(root, qs[i]) && Eval(root, env, qs[i], seen) == Some(vs[i]) {
      assert i > 0 ==> Valid(root, ps[i - 1]);
    }
  }

  lemma StepUp(root: Node, env: Env, p: Path, seen: set<Path>, values: seq<string>)
    requires EnvOk(root, env) && Valid(root, p) && !At(root, p).kind.Ident?
    requires Operands(root, env, p).Some?
    requires AllEval(root, env, Operands(root, env, p).value, seen, values)
    ensures Eval(root, env, p, seen) == Some(Combine(At(root, p), values))
  {
    var n, ps := At(root, p), Operands(root, env, p).value;
    match n.kind
    case Text(_) =>
    case Paren => assert ps[0] == p + [0];
    case Plus => assert ps[0] == p + [0] && ps[1] == p + [1];
    case Template(_, _) => KidsUp(root, env, p, 0, seen, values);
    case Call => JoinUp(root, env, p, seen, values);
  }

  lemma JoinUp(root: Node, env: Env, p: Path, seen: set<Path>, values: seq<string>)
    requires EnvOk(root, env) && Valid(root, p) && At(root, p).kind.Call? && IsJoinCall(At(root, p))
    requires AllEval(root, env, Operands(root, env, p).value, seen, values)
    ensures EvalJoin(root, env, p, seen) == Some(Combine(At(root, p), values))
  {
    var n, ps := At(root, p), Operands(root, env, p).value;
    JoinArrayAt(root, p);
    var elements := KidPaths(p + [0, 0], |n.kids[0].kids[0].kids|);
    if |n.kids| == 1 {
      KidsUp(root, env, p + [0, 0], 0, seen, values);
    } else {
      AllEvalTail(root, env, p + [1], elements, seen, values);
      KidsUp(root, env, p + [0, 0], 0, seen, values[1..]);
    }
  }

  // Soundness: a returned value has a derivation, whatever was already seen.

  lemma BuildDerivation(root: Node, env: Env, p: Path, values: seq<string>)
    requires Valid(root, p) && Operands(root, env, p).Some? && |values| == |Operands(root, env, p).value|
    requires forall i | 0 <= i < |values| :: Denotes(root, env, Operands(root, env, p).value[i], values[i])
    ensures Denotes(root, env, p, Combine(At(root, p), values))
  {
    var ps := Operands(root, env, p).value;
    var ds := seq(|ps|, i requires 0 <= i < |ps| && Denotes(root, env, ps[i], values[i]) =>
      ProofOf(root, env, ps[i], values[i]));
    assert Values(ds) == values;
    var d := Derivation(p, Combine(At(root, p), values), ds);
    assert Rule(root, env, d);
    assert Derives(root, env, d);
  }

  lemma {:induction false} EvalSound(root: Node, env: Env, p: Path, seen: set<Path>)
    requires EnvOk(root, env) && Valid(root, p)
    requires Eval(root, env, p, seen).Some?
    ensures Denotes(root, env, p, Eval(root, env, p, seen).value)
    decreases |AllPaths(root) - seen|, At(root, p)
  {
    if At(root, p).kind.Ident? {
      var q := env(p).value;
      SeenShrinks(root, seen, q);
      EvalSound(root, env, q, seen + {q});
      BuildDerivation(root, env, p, [Eval(root, env, p, seen).value]);
    } else {
      var values := StepDown(root, env, p, seen);
      forall i | 0 <= i < |values| ensures Denotes(root, env, Operands(root, env, p).value[i], values[i]) {
        OperandInside(root, env, p, i);
        EvalSound(root, env, Operands(root, env, p).value[i], seen);
      }
      BuildDerivation(root, env, p, values);
    }
  }

  // Completeness: the `seen` guard never rejects an expression that has a derivation, because a
  // derivation of an initializer being evaluated is at least as large as the one at hand.

  ghost predicate SeenAbove(root: Node, env: Env, seen: set<Path>, size: nat) {
    forall d | Derives(root, env, d) && d.at in seen :: Size(d) >= size
  }

  lemma {:induction false} EvalComplete(root: Node, env: Env, d: Derivation, seen: set<Path>)
    requires EnvOk(root, env) && Derives(root, env, d) && SeenAbove(root, env, seen, Size(d))
    ensures Eval(root, env, d.at, seen) == Some(d.value)
    decreases d
  {
    var ds := d.premises;
    if At(root, d.at).kind.Ident? {
      var q := ds[0].at;
      assert Derives(root, env, ds[0]) && Size(ds[0]) < Size(d);
      assert q !in seen;
      forall e | Derives(root, env, e) && e.at in seen + {q} ensures Size(e) >= Size(ds[0]) {
        if e.at == q {
          DerivationUnique(root, env, e, ds[0]);
        }
      }
      EvalComplete(root, env, ds[0], seen + {q});
    } else {
      forall i | 0 <= i < |ds|
        ensures Valid(root, ds[i].at) && Eval(root, env, ds[i].at, seen) == Some(ds[i].value)
      {
        PremiseSmaller(ds, i);
        EvalComplete(root, env, ds[i], seen);
      }
      StepUp(root, env, d.at, seen, Values(ds));
    }
  }

  /** The evaluator returns `value` exactly when a finite derivation gives it. */
  lemma EvalExact(root: Node, env: Env, p: Path, value: string)
    requires EnvOk(root, env) && Valid(root, p)
    ensures Eval(root, env, p, {}) == Some(value) <==> Denotes(root, env, p, value)
  {
    if Eval(root, env, p, {}) == Some(value) {
      EvalSound(root, env, p, {});
    }
    if Denotes(root, env, p, value) {
      EvalComplete(root, env, ProofOf(root, env, p, value), {});
    }
  }

  // ---------------------------------------------------------------- what each form means

  ghost predicate AllDenote(root: Node, env: Env, ps: seq<Path>, values: seq<string>) {
    |values| == |ps| && forall i | 0 <= i < |ps| :: Denotes(root, env, ps[i], values[i])
  }

  /** The value is combined from what these operands of the node denote. */
  ghost predicate CombinesTo(root: Node, env: Env, n: Node, ps: seq<Path>, value: string) {
    exists values :: AllDenote(root, env, ps, values) && value == Combine(n, values)
  }

  /** What an expression denotes is made of what its operands denote. */
  lemma Meaning(root: Node, env: Env, p: Path, value: string)
    requires Valid(root, p)
    ensures Denotes(root, env, p, value) <==>
              Operands(root, env, p).Some? && CombinesTo(root, env, At(root, p), Operands(root, env, p).value, value)
  {
    if Denotes(root, env, p, value) {
      var d := ProofOf(root, env, p, value);
      var values := Values(d.premises);
      forall i | 0 <= i < |values| ensures Denotes(root, env, Operands(root, env, p).value[i], values[i]) {
        assert Derives(root, env, d.premises[i]);
      }
      assert AllDenote(root, env, Operands(root, env, p).value, values);
    }
    if Operands(root, env, p).Some? {
      forall values | AllDenote(root, env, Operands(root, env, p).value, values)
        ensures Denotes(root, env, p, Combine(At(root, p), values))
      {
        BuildDerivation(root, env, p, values);
      }
    }
  }

  lemma TextMeans(root: Node, env: Env, p: Path, text: string, value: string)
    requires Valid(root, p) && At(root, p).kind == Text(text)
    ensures Denotes(root, env, p, value) <==> value == text
  {
    Meaning(root, env, p, value);
    assert AllDenote(root, env, [], []);
  }

  lemma ParenMeans(root: Node, env: Env, p: Path, value: string)
    requires Valid(root, p) && At(root, p).kind.Paren?
    ensures Denotes(root, env, p, value) <==> |At(root, p).kids| == 1 && Denotes(root, env, p + [0], value)
  {
    Meaning(root, env, p, value);
    assert Denotes(root, env, p + [0], value) ==> AllDenote(root, env, [p + [0]], [value]);
  }

  lemma AllDenoteCons(root: Node, env: Env, q: Path, ps: seq<Path>, value: string, values: seq<string>)
    ensures AllDenote(root, env, [q] + ps, [value] + values) <==>
      Denotes(root, env, q, value) && AllDenote(root, env, ps, values)
  {
    var qs, vs := [q] + ps, [value] + values;
    assert |vs| > 0 && |qs| > 0 && qs[0] == q && vs[0] == value;
    if AllDenote(root, env, qs, vs) {
      forall i | 0 <= i < |ps| ensures Denotes(root, env, ps[i], values[i]) {
        assert Denotes(root, env, qs[i + 1], vs[i + 1]);
      }
    }
    if Denotes(root, env, q, value) && AllDenote(root, env, ps, values) {
      forall i | 0 <= i < |qs| ensures Denotes(root, env, qs[i], vs[i]) {
        assert i > 0 ==> Denotes(root, env, ps[i - 1], values[i - 1]);
      }
    }
  }

  /** The value is one of the first expression followed by one of the second. */
  ghost predicate IsSum(root: Node, env: Env, p: Path, q: Path, value: string) {
    exists left, right :: Denotes(root, env, p, left) && Denotes(root, env, q, right) && value == left + right
  }

  /** `left + right`. */
  lemma PlusMeans(root: Node, env: Env, p: Path, value: string)
    requires Valid(root, p) && At(root, p).kind.Plus?
    ensures Denotes(root, env, p, value) <==> |At(root, p).kids| == 2 && IsSum(root, env, p + [0], p + [1], value)
  {
    var l, r := p + [0], p + [1];
    Meaning(root, env, p, value);
    if |At(root, p).kids| == 2 {
      if values :| AllDenote(root, env, [l, r], values) && value == Combine(At(root, p), values) {
        assert Denotes(root, env, [l, r][0], values[0]) && Denotes(root, env, [l, r][1], values[1]);
      }
      if left, right :| Denotes(root, env, l, left) && Denotes(root, env, r, right) && value == left + right {
        AllDenoteCons(root, env, r, [], right, []);
        AllDenoteCons(root, env, l, [r], left, [right]);
        assert [l] + [r] == [l, r] && [left] + [right] == [left, right];
        assert [r] + [] == [r] && [right] + [] == [right];
        assert AllDenote(root, env, [l, r], [left, right]);
      }
    }
  }

  /** An identifier denotes what its initializer denotes. */
  lemma IdentMeans(root: Node, env: Env, p: Path, value: string)
    requires Valid(root, p) && At(root, p).kind.Ident?
    ensures Denotes(root, env, p, value) <==> env(p).Some? && Denotes(root, env, env(p).value, value)
  {
    Meaning(root, env, p, value);
    assert env(p).Some? && Denotes(root, env, env(p).value, value) ==> AllDenote(root, env, [env(p).value], [value]);
  }

  function Spans(values: seq<string>, tails: seq<string>): seq<string>
    requires |values| == |tails|
  {
    seq(|values|, i requires 0 <= i < |values| => values[i] + tails[i])
  }

  /** The head, then each value followed by its literal text. */
  lemma {:induction false} WeaveMeans(head: string, values: seq<string>, tails: seq<string>)
    requires |values| == |tails|
    ensures Weave(head, values, tails) == Join([head] + Spans(values, tails), "")
  {
    if values != [] {
      var n := |values| - 1;
      WeaveMeans(head, values[..n], tails[..n]);
      var before := [head] + Spans(values[..n], tails[..n]);
      JoinMeans(before, values[n] + tails[n], "");
      assert [head] + Spans(values, tails) == before + [values[n] + tails[n]];
      assert Join(before, "") + "" == Join(before, "");
      assert Join(before, "") + values[n] + tails[n] == Join(before, "") + (values[n] + tails[n]);
    }
  }

  /** The value is the head followed by each span's value and literal text, in order. */
  ghost predicate IsTemplate(root: Node, env: Env, p: Path, head: string, tails: seq<string>, value: string) {
    exists values: seq<string> ::
      |values| == |tails| && AllDenote(root, env, KidPaths(p, |tails|), values)
      && value == Join([head] + Spans(values, tails), "")
  }

  lemma TemplateMeans(root: Node, env: Env, p: Path, head: string, tails: seq<string>, value: string)
    requires Valid(root, p) && At(root, p).kind == Template(head, tails)
    ensures Denotes(root, env, p, value) <==> |At(root, p).kids| == |tails| && IsTemplate(root, env, p, head, tails, value)
  {
    Meaning(root, env, p, value);
    forall values: seq<string> | |values| == |tails|
      ensures Combine(At(root, p), values) == Join([head] + Spans(values, tails), "")
    {
      WeaveMeans(head, values, tails);
    }
  }

  /** The parts, joined by the separator. */
  ghost predicate IsJoined(root: Node, env: Env, elements: seq<Path>, separator: string, value: string) {
    exists parts :: AllDenote(root, env, elements, parts) && value == Join(parts, separator)
  }

  /** The call is `[...].join(...)`. */
  predicate CallsJoinOfArray(n: Node) {
    && n.kind == Call && |n.kids| > 0 && n.kids[0].kind == Member("join")
    && |n.kids[0].kids| > 0 && n.kids[0].kids[0].kind == ArrayLiteral
  }

  /** `[...].join()` joins by commas. */
  lemma JoinMeansCommas(root: Node, env: Env, p: Path, value: string)
    requires Valid(root, p) && CallsJoinOfArray(At(root, p)) && |At(root, p).kids| == 1
    ensures Denotes(root, env, p, value) <==>
      IsJoined(root, env, KidPaths(p + [0, 0], |At(root, p).kids[0].kids[0].kids|), ",", value)
  {
    Meaning(root, env, p, value);
  }

  /** The parts, joined by what the expression at `q` denotes. */
  ghost predicate IsJoinedBy(root: Node, env: Env, elements: seq<Path>, q: Path, value: string) {
    exists separator :: Denotes(root, env, q, separator) && IsJoined(root, env, elements, separator, value)
  }

  lemma JoinedCombines(root: Node, env: Env, n: Node, elements: seq<Path>, q: Path, value: string)
    requires n.kind == Call && |n.kids| > 1
    ensures IsJoinedBy(root, env, elements, q, value) <==> CombinesTo(root, env, n, [q] + elements, value)
  {
    if values :| AllDenote(root, env, [q] + elements, values) && value == Combine(n, values) {
      AllDenoteCons(root, env, q, elements, values[0], values[1..]);
      assert values == [values[0]] + values[1..];
      assert IsJoined(root, env, elements, values[0], value);
    }
    if IsJoinedBy(root, env, elements, q, value) {
      var separator :| Denotes(root, env, q, separator) && IsJoined(root, env, elements, separator, value);
      var parts :| AllDenote(root, env, elements, parts) && value == Join(parts, separator);
      AllDenoteCons(root, env, q, elements, separator, parts);
      assert ([separator] + parts)[1..] == parts;
      assert value == Combine(n, [separator] + parts);
    }
  }

  /** `[...].join(separator, ...)`. */
  lemma JoinMeansSeparator(root: Node, env: Env, p: Path, value: string)
    requires Valid(root, p) && CallsJoinOfArray(At(root, p)) && |At(root, p).kids| > 1
    ensures Denotes(root, env, p, value) <==>
      IsJoinedBy(root, env, KidPaths(p + [0, 0], |At(root, p).kids[0].kids[0].kids|), p + [1], value)
  {
    var elements := KidPaths(p + [0, 0], |At(root, p).kids[0].kids[0].kids|);
    assert Operands(root, env, p) == Some([p + [1]] + elements);
    Meaning(root, env, p, value);
    JoinedCombines(root, env, At(root, p), elements, p + [1], value);
  }

  /** No other form denotes anything. */
  lemma OtherMeansNothing(root: Node, env: Env, p: Path, value: string)
    requires Valid(root, p)
    requires var kind := At(root, p).kind;
             && !kind.Text? && !kind.Paren? && !kind.Plus? && !kind.Ident? && !kind.Template?
             && !CallsJoinOfArray(At(root, p))
    ensures !Denotes(root, env, p, value)
  {
    Meaning(root, env, p, value);
  }

  // ---------------------------------------------------------------- cyclic constants

  /** The value of the expression at `c[i]` needs the value of the one at `c[i + 1]`. */
  predicate Link(root: Node, env: Env, c: seq<Path>, i: nat)
    requires i + 1 < |c|
  {
    Valid(root, c[i]) && Operands(root, env, c[i]).Some? && c[i + 1] in Operands(root, env, c[i]).value
  }

  /** Each expression of `c` is an operand of the one before it. */
  predicate Chain(root: Node, env: Env, c: seq<Path>) {
    |c| >= 1 && forall i: nat | i + 1 < |c| :: Link(root, env, c, i)
  }

  lemma {:induction false} ChainHasDerivation(root: Node, env: Env, d: Derivation, c: seq<Path>, i: nat)
    returns (e: Derivation)
    requires Chain(root, env, c) && i < |c| && Derives(root, env, d) && d.at == c[i]
    ensures Derives(root, env, e) && e.at == c[|c| - 1]
    ensures Size(e) + (|c| - 1 - i) <= Size(d)
    decreases |c| - i
  {
    e := d;
    if i < |c| - 1 {
      assert Link(root, env, c, i);
      var k :| 0 <= k < |d.premises| && d.premises[k].at == c[i + 1];
      PremiseSmaller(d.premises, k);
      e := ChainHasDerivation(root, env, d.premises[k], c, i + 1);
    }
  }

  /** An expression whose value depends on one that depends on itself has none: the evaluator returns undefined. */
  lemma CyclicHasNoValue(root: Node, env: Env, c: seq<Path>, k: nat)
    requires EnvOk(root, env) && Chain(root, env, c) && k < |c| - 1 && c[|c| - 1] == c[k]
    ensures Valid(root, c[0]) && Eval(root, env, c[0], {}).None?
  {
    assert Link(root, env, c, 0);
    if Eval(root, env, c[0], {}).Some? {
      EvalSound(root, env, c[0], {});
      var d := ProofOf(root, env, c[0], Eval(root, env, c[0], {}).value);
      ChainPrefix(root, env, c, k + 1);
      var onCycle := ChainHasDerivation(root, env, d, c[..k + 1], 0);
      var again := ChainHasDerivation(root, env, onCycle, c, k);
      DerivationUnique(root, env, onCycle, again);
    }
  }

  lemma ChainPrefix(root: Node, env: Env, c: seq<Path>, n: nat)
    requires Chain(root, env, c) && 0 < n <= |c|
    ensures Chain(root, env, c[..n])
  {
    forall i: nat | i + 1 < n ensures Link(root, env, c[..n], i) {
      assert Link(root, env, c, i);
    }
  }

  // ---------------------------------------------------------------- lexical scopes

  predicate IsScope(root: Node, p: Path) {
    Valid(root, p) && At(root, p).kind.Scope?
  }

  /** `enclosingConstScope`: the innermost scope boundary at or above `p`. */
  function Enclosing(root: Node, p: Path): (r: Path)
    requires Valid(root, p) && IsScope(root, [])
    ensures Valid(root, r) && At(root, r).kind == Scope && |r| <= |p| && r == p[..|r|]
    ensures forall k | |r| < k <= |p| :: Valid(root, p[..k]) ==> At(root, p[..k]).kind != Scope
    decreases |p|
  {
    if IsScope(root, p) then p else
    PrefixValid(root, p, |p| - 1);
    var r := Enclosing(root, p[..|p| - 1]);
    assert p[..|p| - 1][..|r|] == p[..|r|] && p[..|p|] == p;
    assert forall k | |r| < k < |p| :: p[..|p| - 1][..k] == p[..k];
    r
  }

  /** The node at `x` is the initializer of a `const` named `name` whose scope is `scope`. */
  predicate Binds(root: Node, scope: Path, name: string, x: Path)
    requires IsScope(root, [])
  {
    && |x| >= 2 && Valid(root, x) && Valid(root, x[..|x| - 1]) && Valid(root, x[..|x| - 2])
    && At(root, x[..|x| - 2]).kind.ConstList?
    && At(root, x[..|x| - 1]).kind == Declaration(Some(name), Some(x[|x| - 1]))
    && Enclosing(root, x[..|x| - 2]) == scope
  }

  /** JavaScript rejects a file that declares one `const` name twice in a scope. */
  ghost predicate OneBinderPerScope(root: Node)
    requires IsScope(root, [])
  {
    forall scope, name, x, y | Binds(root, scope, name, x) && Binds(root, scope, name, y) :: x == y
  }

  /** Lexical scoping: `x` binds `name` in a scope around `p`, and no scope further in binds it. */
  ghost predicate LexicallyBinds(root: Node, p: Path, name: string, x: Path)
    requires IsScope(root, [])
  {
    exists k: nat :: k < |p| && Binds(root, p[..k], name, x) && NoBinder(root, p, name, k + 1)
  }

  /** No scope around `p` at depth `k` or deeper binds `name`. */
  ghost predicate NoBinder(root: Node, p: Path, name: string, k: nat)
    requires IsScope(root, [])
  {
    forall j, y | k <= j < |p| :: !Binds(root, p[..j], name, y)
  }

  lemma BinderInDeclaration(root: Node, p: Path, scope: Path, name: string, x: Path)
    requires IsScope(root, []) && Binds(root, scope, name, x) && x[..|x| - 1] == p
    ensures Valid(root, p) && At(root, p).kind == Declaration(Some(name), Some(x[|x| - 1]))
    ensures x[|x| - 1] < |At(root, p).kids|
  {
    assert x == p + [x[|x| - 1]];
    ChildAt(root, p, x[|x| - 1]);
  }

  type Scopes = map<Path, map<string, Path>>

  ghost predicate OnlyBinders(root: Node, scopes: Scopes)
    requires IsScope(root, [])
  {
    forall scope, name | scope in scopes && name in scopes[scope] :: Binds(root, scope, name, scopes[scope][name])
  }

  predicate Indexed(scopes: Scopes, scope: Path, name: string) {
    scope in scopes && name in scopes[scope]
  }

  ghost predicate Grows(before: Scopes, after: Scopes) {
    forall scope, name | Indexed(before, scope, name) :: Indexed(after, scope, name)
  }

  function AddBinding(scopes: Scopes, scope: Path, name: string, x: Path): Scopes {
    var bindings := if scope in scopes then scopes[scope] else map[];
    scopes[scope := bindings[name := x]]
  }

  lemma AddBindingKeeps(root: Node, scopes: Scopes, scope: Path, name: string, x: Path)
    requires IsScope(root, []) && OnlyBinders(root, scopes) && Binds(root, scope, name, x)
    ensures OnlyBinders(root, AddBinding(scopes, scope, name, x))
    ensures Grows(scopes, AddBinding(scopes, scope, name, x))
    ensures Indexed(AddBinding(scopes, scope, name, x), scope, name)
  {
  }

  /** Every binder inside the subtree at `p` has its name indexed in its scope. */
  ghost predicate Covers(root: Node, scopes: Scopes, p: Path)
    requires IsScope(root, [])
  {
    forall scope, name, x | Binds(root, scope, name, x) && Under(x, p) :: Indexed(scopes, scope, name)
  }

  /** The declaration list of initializer `x` is at `p` or below. */
  predicate Under(x: Path, p: Path) {
    |p| + 2 <= |x| && x[..|p|] == p
  }

  /** The scope index of `collectConstBindings` and the resolver it returns. */
  class ConstBindings {
    var scopes: Scopes

    constructor ()
      ensures scopes == map[]
    {
      scopes := map[];
    }

    method EnclosingConstScope(root: Node, p: Path) returns (current: Path)
      requires Valid(root, p) && IsScope(root, [])
      ensures current == Enclosing(root, p)
    {
      current := p;
      while !IsScope(root, current)
        invariant Valid(root, current) && Enclosing(root, current) == Enclosing(root, p)
        decreases |current|
      {
        PrefixValid(root, current, |current| - 1);
        current := current[..|current| - 1];
      }
    }

    /** One declaration of a `const` list: indexed when it names an identifier and is initialised. */
    method AddDeclaration(root: Node, p: Path, scope: Path, i: nat)
      requires Valid(root, p) && IsScope(root, []) && At(root, p).kind.ConstList? && i < |At(root, p).kids|
      requires scope == Enclosing(root, p) && OnlyBinders(root, scopes)
      modifies this
      ensures OnlyBinders(root, scopes) && Grows(old(scopes), scopes)
      ensures forall name, x | Binds(root, scope, name, x) && x[..|x| - 1] == p + [i] :: Indexed(scopes, scope, name)
    {
      ChildAt(root, p, i);
      var declaration := At(root, p).kids[i];
      if declaration.kind.Declaration? && declaration.kind.name.Some? && declaration.kind.init.Some? {
        var name, init := declaration.kind.name.value, declaration.kind.init.value;
        if init < |declaration.kids| {
          var x := p + [i, init];
          ChildAt(root, p + [i], init);
          assert x == p + [i] + [init] && x[..|x| - 1] == p + [i] && x[..|x| - 2] == p;
          AddBindingKeeps(root, scopes, scope, name, x);
          scopes := AddBinding(scopes, scope, name, x);
        }
      }
      forall name, x | Binds(root, scope, name, x) && x[..|x| - 1] == p + [i] ensures Indexed(scopes, scope, name) {
        BinderInDeclaration(root, p + [i], scope, name, x);
      }
    }

    method AddDeclarations(root: Node, p: Path)
      requires Valid(root, p) && At(root, p).kind.ConstList? && IsScope(root, [])
      requires OnlyBinders(root, scopes)
      modifies this
      ensures OnlyBinders(root, scopes) && Grows(old(scopes), scopes)
      ensures forall scope, name, x | Binds(root, scope, name, x) && x[..|x| - 2] == p :: Indexed(scopes, scope, name)
    {
      var scope := EnclosingConstScope(root, p);
      var n := |At(root, p).kids|;
      for i := 0 to n
        invariant OnlyBinders(root, scopes) && Grows(old(scopes), scopes)
        invariant forall j: nat, name, x | j < i && Binds(root, scope, name, x) && x[..|x| - 1] == p + [j] ::
                    Indexed(scopes, scope, name)
      {
        AddDeclaration(root, p, scope, i);
      }
      forall s, name, x | Binds(root, s, name, x) && x[..|x| - 2] == p ensures Indexed(scopes, s, name) {
        assert x[..|x| - 1] == p + [x[|x| - 2]];
        ChildAt(root, p, x[|x| - 2]);
      }
    }

    /** `visit`: indexes the declarations of the subtree at `p`. */
    method Visit(root: Node, p: Path)
      requires Valid(root, p) && IsScope(root, []) && OnlyBinders(root, scopes)
      modifies this
      ensures OnlyBinders(root, scopes) && Grows(old(scopes), scopes) && Covers(root, scopes, p)
      decreases At(root, p)
    {
      if At(root, p).kind.ConstList? {
        AddDeclarations(root, p);
      }
      var n := |At(root, p).kids|;
      for i := 0 to n
        invariant OnlyBinders(root, scopes) && Grows(old(scopes), scopes)
        invariant forall scope, name, x | Binds(root, scope, name, x) && x[..|x| - 2] == p :: Indexed(scopes, scope, name)
        invariant forall scope, name, x, j: nat | Binds(root, scope, name, x) && j < i && Under(x, p + [j]) ::
                    Indexed(scopes, scope, name)
      {
        ChildAt(root, p, i);
        Visit(root, p + [i]);
      }
      forall scope, name, x | Binds(root, scope, name, x) && Under(x, p) ensures Indexed(scopes, scope, name) {
        if |x| == |p| + 2 {
          assert x[..|x| - 2] == p;
        } else {
          PrefixValid(root, x, |p| + 1);
          var j := x[|p|];
          assert x[..|p| + 1] == p + [j];
          ChildAt(root, p, j);
          assert Under(x, p + [j]);
        }
      }
    }

    /** The resolver: walks from the identifier's parent outward to the nearest binding. */
    method Resolve(root: Node, p: Path, name: string) returns (binding: Option<Path>)
      requires IsScope(root, []) && Valid(root, p) && OnlyBinders(root, scopes) && Covers(root, scopes, [])
      ensures binding == Lookup(scopes, p, name)
    {
      var k := |p|;
      assert p[..k] == p;
      while k > 0
        invariant 0 <= k <= |p| && Lookup(scopes, p[..k], name) == Lookup(scopes, p, name)
      {
        k := k - 1;
        assert p[..k + 1][..k] == p[..k];
        if p[..k] in scopes && name in scopes[p[..k]] {
          return Some(scopes[p[..k]][name]);
        }
      }
      return None;
    }
  }

  function Lookup(scopes: Scopes, p: Path, name: string): Option<Path>
    decreases |p|
  {
    if p == [] then None else
    var parent := p[..|p| - 1];
    if Indexed(scopes, parent, name) then Some(scopes[parent][name]) else Lookup(scopes, parent, name)
  }

  /** The index of a file answers every lookup as lexical scoping does. */
  lemma {:induction false} LookupIsLexical(root: Node, scopes: Scopes, p: Path, name: string, k: nat)
    requires IsScope(root, []) && OnlyBinders(root, scopes) && Covers(root, scopes, [])
    requires k <= |p| && NoBinder(root, p, name, k)
    ensures Lookup(scopes, p[..k], name).Some? ==> LexicallyBinds(root, p, name, Lookup(scopes, p[..k], name).value)
    ensures Lookup(scopes, p[..k], name).None? ==> NoBinder(root, p, name, 0)
    decreases k
  {
    if k > 0 {
      assert p[..k][..k - 1] == p[..k - 1];
      if Indexed(scopes, p[..k - 1], name) {
        assert Binds(root, p[..k - 1], name, scopes[p[..k - 1]][name]);
      } else {
        forall j, y | k - 1 <= j < |p| ensures !Binds(root, p[..j], name, y) {
          if j == k - 1 {
            assert |y| >= 2 ==> Under(y, []);
          }
        }
        LookupIsLexical(root, scopes, p, name, k - 1);
      }
    }
  }

  /** The resolver as a function of the scope index. */
  function Resolver(root: Node, scopes: Scopes): Env {
    p => if Valid(root, p) && At(root, p).kind.Ident? then Lookup(scopes, p, At(root, p).kind.id) else None
  }

  /** `env` sends each identifier use to the initializer that binds it under lexical scoping, and nothing else. */
  ghost predicate LexicalEnv(root: Node, env: Env)
    requires IsScope(root, [])
  {
    && EnvOk(root, env)
    && forall p, q | Valid(root, p) && At(root, p).kind.Ident? ::
         env(p) == Some(q) <==> LexicallyBinds(root, p, At(root, p).kind.id, q)
  }

  lemma LexicalBinderUnique(root: Node, p: Path, name: string, x: Path, y: Path)
    requires IsScope(root, []) && OneBinderPerScope(root)
    requires LexicallyBinds(root, p, name, x) && LexicallyBinds(root, p, name, y)
    ensures x == y
  {
  }

  lemma ResolverIsLexical(root: Node, scopes: Scopes)
    requires IsScope(root, []) && OneBinderPerScope(root)
    requires OnlyBinders(root, scopes) && Covers(root, scopes, [])
    ensures LexicalEnv(root, Resolver(root, scopes))
  {
    var env := Resolver(root, scopes);
    forall p ensures env(p).Some? ==> Valid(root, env(p).value)
    {
      if env(p).Some? {
        assert p[..|p|] == p;
        LookupIsLexical(root, scopes, p, At(root, p).kind.id, |p|);
      }
    }
    forall p, q | Valid(root, p) && At(root, p).kind.Ident?
      ensures env(p) == Some(q) <==> LexicallyBinds(root, p, At(root, p).kind.id, q)
    {
      var name := At(root, p).kind.id;
      assert p[..|p|] == p;
      LookupIsLexical(root, scopes, p, name, |p|);
      if LexicallyBinds(root, p, name, q) {
        LexicalBinderUnique(root, p, name, q, env(p).value);
      }
    }
  }

  /** The value of the template from the values its spans evaluate to. */
  ghost predicate TemplateEvaluates(root: Node, env: Env, p: Path, seen: set<Path>, head: string, tails: seq<string>, value: string)
    requires EnvOk(root, env)
  {
    exists values: seq<string> ::
      |values| == |tails| && AllEval(root, env, KidPaths(p, |tails|), seen, values)
      && value == Join([head] + Spans(values, tails), "")
  }

  /** What evaluating a template yields: its head and spans in order, or nothing as some span has no value. */
  ghost predicate TemplateYields(root: Node, env: Env, p: Path, seen: set<Path>, r: Option<string>)
    requires EnvOk(root, env) && Valid(root, p) && At(root, p).kind.Template?
  {
    if r.Some? then TemplateEvaluates(root, env, p, seen, At(root, p).kind.head, At(root, p).kind.tails, r.value)
    else exists i: nat :: i < |At(root, p).kids| && Valid(root, p + [i]) && Eval(root, env, p + [i], seen).None?
  }

  lemma {:induction false} KidsFail(root: Node, env: Env, p: Path, i: nat, seen: set<Path>) returns (j: nat)
    requires EnvOk(root, env) && Valid(root, p) && i <= |At(root, p).kids| && EvalKids(root, env, p, i, seen).None?
    ensures i <= j < |At(root, p).kids| && Valid(root, p + [j]) && Eval(root, env, p + [j], seen).None?
    decreases |At(root, p).kids| - i
  {
    ChildAt(root, p, i);
    if Eval(root, env, p + [i], seen).None? {
      j := i;
    } else {
      j := KidsFail(root, env, p, i + 1, seen);
    }
  }

  /** A template evaluates to its head and spans in order, or some span has no value. */
  lemma TemplateResult(root: Node, env: Env, p: Path, seen: set<Path>)
    requires EnvOk(root, env) && Valid(root, p)
    requires At(root, p).kind.Template? && |At(root, p).kids| == |At(root, p).kind.tails|
    ensures TemplateYields(root, env, p, seen, EvalTemplate(root, env, p, seen))
  {
    var kids, head, tails := EvalKids(root, env, p, 0, seen), At(root, p).kind.head, At(root, p).kind.tails;
    if kids.Some? {
      forall i | 0 <= i < |tails| { KidsDown(root, env, p, 0, seen, i); }
      WeaveMeans(head, kids.value, tails);
      assert AllEval(root, env, KidPaths(p, |tails|), seen, kids.value);
    } else {
      var j := KidsFail(root, env, p, 0, seen);
    }
  }

  /** The loop over the template spans, which stops at the first span without a value. */
  method ResolveTemplate(root: Node, env: Env, p: Path, seen: set<Path>) returns (r: Option<string>)
    requires EnvOk(root, env) && Valid(root, p)
    requires At(root, p).kind.Template? && |At(root, p).kids| == |At(root, p).kind.tails|
    ensures r == EvalTemplate(root, env, p, seen) && TemplateYields(root, env, p, seen, r)
  {
    var head, tails := At(root, p).kind.head, At(root, p).kind.tails;
    var result := head;
    ghost var values: seq<string>, all := [], EvalKids(root, env, p, 0, seen);
    PrependNil(all);
    for i := 0 to |tails|
      invariant |values| == i && result == Weave(head, values, tails[..i])
      invariant all == Prepend(values, EvalKids(root, env, p, i, seen))
    {
      KidsByFirst(root, env, p, i, seen);
      var value := Eval(root, env, p + [i], seen);
      if value.None? {
        TemplateResult(root, env, p, seen);
        return None;
      }
      result := result + (value.value + tails[i]);
      WeaveStep(head, values, value.value, tails, i);
      PrependStep(values, value.value, EvalKids(root, env, p, i + 1, seen));
      values := values + [value.value];
    }
    assert tails[..|tails|] == tails && values + [] == values;
    TemplateResult(root, env, p, seen);
    return Some(result);
  }

  lemma KidsByFirst(root: Node, env: Env, p: Path, i: nat, seen: set<Path>)
    requires EnvOk(root, env) && Valid(root, p) && i < |At(root, p).kids|
    ensures Valid(root, p + [i])
    ensures var first := Eval(root, env, p + [i], seen);
            EvalKids(root, env, p, i, seen) ==
            if first.None? then None else Prepend([first.value], EvalKids(root, env, p, i + 1, seen))
  {
    ChildAt(root, p, i);
  }

  lemma WeaveStep(head: string, values: seq<string>, value: string, tails: seq<string>, i: nat)
    requires |values| == i < |tails|
    ensures Weave(head, values + [value], tails[..i + 1]) == Weave(head, values, tails[..i]) + (value + tails[i])
  {
    assert (values + [value])[..i] == values && tails[..i + 1][..i] == tails[..i];
    assert Weave(head, values, tails[..i]) + value + tails[i] == Weave(head, values, tails[..i]) + (value + tails[i]);
  }

  lemma PrependNil(rest: Option<seq<string>>)
    ensures Prepend([], rest) == rest
  {
    assert rest.Some? ==> [] + rest.value == rest.value;
  }

  ghost function Prepend(values: seq<string>, rest: Option<seq<string>>): Option<seq<string>> {
    if rest.None? then None else Some(values + rest.value)
  }

  lemma PrependStep(values: seq<string>, value: string, rest: Option<seq<string>>)
    ensures Prepend(values, Prepend([value], rest)) == Prepend(values + [value], rest)
  {
    if rest.Some? {
      assert values + ([value] + rest.value) == (values + [value]) + rest.value;
    }
  }

  /**
   * The specifier the scanner reports for the argument at `p` of an `import()` or `require()` call:
   * exactly the string that a finite derivation under lexical scoping gives the argument.
   */
  method ScanSpecifier(root: Node, p: Path) returns (specifier: Option<string>)
    requires IsScope(root, []) && OneBinderPerScope(root) && Valid(root, p)
    ensures forall value :: specifier == Some(value) <==> exists env :: LexicalEnv(root, env) && Denotes(root, env, p, value)
  {
    var bindings := new ConstBindings();
    bindings.Visit(root, []);
    var env := Resolver(root, bindings.scopes);
    ResolverIsLexical(root, bindings.scopes);
    specifier := Eval(root, env, p, {});
    forall value ensures specifier == Some(value) <==> exists e :: LexicalEnv(root, e) && Denotes(root, e, p, value) {
      EvalExact(root, env, p, value);
      if e :| LexicalEnv(root, e) && Denotes(root, e, p, value) {
        LexicalEnvsAgree(root, env, e, p, value);
      }
    }
  }

  lemma {:induction false} DerivationTransfers(root: Node, e: Env, f: Env, d: Derivation)
    requires IsScope(root, []) && LexicalEnv(root, e) && LexicalEnv(root, f) && Derives(root, e, d)
    ensures Derives(root, f, d)
  {
    forall i | 0 <= i < |d.premises| ensures Derives(root, f, d.premises[i]) {
      DerivationTransfers(root, e, f, d.premises[i]);
    }
    assert Rule(root, e, d);
    if At(root, d.at).kind.Ident? {
      assert e(d.at) == Some(d.premises[0].at);
      assert f(d.at) == Some(d.premises[0].at);
    }
    assert Rule(root, f, d);
  }

  lemma LexicalEnvsAgree(root: Node, e: Env, f: Env, p: Path, value: string)
    requires IsScope(root, []) && LexicalEnv(root, e) && LexicalEnv(root, f) && Denotes(root, f, p, value)
    ensures Denotes(root, e, p, value)
  {
    var d :| Derives(root, f, d) && d.at == p && d.value == value;
    DerivationTransfers(root, f, e, d);
  }
}
