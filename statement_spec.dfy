/**
 * The statement layer of parser.cpp as functions over the token sequence:
 * the productions that report missing tokens through `Expect`, declare
 * variables in the parser's scope stack, push block scopes and store
 * function declarations.
 *
 * An expression-level production yields a `Phrase`: its result, the
 * position after it and the reports it added.  A statement-level
 * production also changes the scopes and the function table, so it takes
 * and yields a whole `Snapshot` of the parser's state.  After a failure (a
 * thrown exception) the position is of no further use: `Parse` stops at
 * the first exception, so nothing reads the cursor again.
 */
module StatementSpec {
  import opened Outcomes
  import opened Tokens
  import opened Values
  import opened Ast
  import opened Variables
  import opened Environments
  import opened EnvStacks
  import FunctionMemories
  import opened Lexing
  import opened ParserSpec

  /** The token `Expect` returns when the current token does not match. */
  const Placeholder: SyntaxToken := SyntaxToken(BadToken, "", ToSize(-1), 0, 0)

  function ExpectedMessage(k: TokenKind): string {
    "Expected " + TokenName(k)
  }

  function MissingType(id: string): string {
    "Data type for identifier: " + id + " not found."
  }

  const ArgumentsStall: Abrupt := Diverges("Arguments: no argument and no comma, the loop repeats forever")

  /** What `x++`, `x+++` and `x--` add to `x`: the operator and the `int` literal. */
  function Increment(k: TokenKind): (TokenKind, int)
    requires k == PlusPlus || k == TriplePlus || k == MinusMinus
  {
    if k == PlusPlus then (Plus, 1) else if k == TriplePlus then (Plus, 2) else (Minus, 1)
  }

  predicate IsCompound(k: TokenKind) {
    k == PlusEqual || k == MinusEqual || k == StarEqual || k == SlashEqual
  }

  /** The operator of a compound assignment `x op= e`. */
  function CompoundOperator(k: TokenKind): TokenKind
    requires IsCompound(k)
  {
    if k == PlusEqual then Plus else if k == MinusEqual then Minus else if k == StarEqual then Star else Slash
  }

  /** `Expect(k)` with the cursor at `j`: the position after it and the report it adds. */
  function ExpectAt(ts: seq<SyntaxToken>, j: nat, k: TokenKind): (r: (nat, seq<string>))
    requires SentinelLast(ts) && j < |ts| && !k.IsSentinel()
    ensures j <= r.0 < |ts|
  {
    if ts[j].kind == k then (j + 1, []) else (j, [ExpectedMessage(k)])
  }

  // ----- expressions that report: ParseExpression and what it dispatches to -----

  /** A production's result, the position after it and the reports it added. */
  datatype Phrase<T> = Phrase(result: Res<T>, next: nat, reports: seq<string>)

  /** A production of `ParserSpec`, which never reports. */
  function Lifted(p: Res<Parsed>, i: nat): Phrase<Node> {
    match p
    case Ok(x) => Phrase(Ok(x.node), x.next, [])
    case Fail(a) => Phrase(Fail(a), i, [])
  }

  /**
   * `ParseExpression`: a group after `(`, a call after `identifier (`, an
   * assignment (or a term) after any other identifier, and precedence
   * climbing from level 0 for everything else.
   */
  function Expression(ts: seq<SyntaxToken>, envs: seq<Scope>, i: nat): (r: Phrase<Node>)
    requires SentinelLast(ts) && i < |ts|
    ensures r.result.Ok? ==> i <= r.next < |ts|
    ensures r.result.Ok? && r.next == i ==> r.result.value == Null
    decreases |ts| - i, 2
  {
    var k := ts[i].kind;
    if k == OpenParen then Grouped(ts, envs, i)
    else if k == Identifier && TokenAt(ts, i + 1).kind == OpenParen then CallAsWritten(ts, envs, i)
    else if k == Identifier then Assignment(ts, envs, i)
    else Lifted(Climb(ts, envs, i, 0), i)
  }

  /** `Group`: `(`, an expression, `)`; the node is the inner expression's. */
  function Grouped(ts: seq<SyntaxToken>, envs: seq<Scope>, i: nat): (r: Phrase<Node>)
    requires SentinelLast(ts) && i < |ts| && ts[i].kind == OpenParen
    ensures r.result.Ok? ==> i < r.next < |ts|
    decreases |ts| - i, 0
  {
    var e := Expression(ts, envs, i + 1);
    if e.result.Fail? then e
    else
      var (n, rep) := ExpectAt(ts, e.next, CloseParen);
      Phrase(e.result, n, e.reports + rep)
  }

  /**
   * `FunctionCall` as parser.cpp:296-302 writes it, and as
   * `ParseExpression` calls it: after `Arguments` has consumed the
   * closing `)`, a second `)` is expected.
   */
  function CallAsWritten(ts: seq<SyntaxToken>, envs: seq<Scope>, i: nat): (r: Phrase<Node>)
    requires SentinelLast(ts) && i < |ts| && ts[i].kind == Identifier && TokenAt(ts, i + 1).kind == OpenParen
    ensures r.result.Ok? ==> i < r.next < |ts|
    decreases |ts| - i, 1
  {
    var c := Call(ts, envs, i);
    if c.result.Fail? then c
    else
      var (n, rep) := ExpectAt(ts, c.next, CloseParen);
      Phrase(c.result, n, c.reports + rep)
  }

  /**
   * The call as intended, with the closing parenthesis expected once:
   * the name, then the argument list, which consumes its own `)`.
   */
  function Call(ts: seq<SyntaxToken>, envs: seq<Scope>, i: nat): (r: Phrase<Node>)
    requires SentinelLast(ts) && i < |ts| && ts[i].kind == Identifier && TokenAt(ts, i + 1).kind == OpenParen
    ensures r.result.Ok? ==> i < r.next < |ts|
    decreases |ts| - i, 0
  {
    var a := ArgumentList(ts, envs, i + 2, [], []);
    match a.result
    case Fail(x) => Phrase(Fail(x), a.next, a.reports)
    case Ok(args) => Phrase(Ok(FunctionCall(ts[i].value, args)), a.next, a.reports)
  }

  /**
   * Where the loop of `Arguments` stands after an argument `e`: on the
   * closing `)`, or past the comma it expected, with the report.
   */
  function AfterArgument(ts: seq<SyntaxToken>, e: Phrase<Node>): (r: (nat, seq<string>))
    requires SentinelLast(ts) && e.next < |ts|
    ensures e.next <= r.0 < |ts|
  {
    if ts[e.next].kind == CloseParen then (e.next, []) else ExpectAt(ts, e.next, Comma)
  }

  /**
   * The loop of `Arguments` after its `(`, with `args` collected and
   * `done` reported so far (the reports of the result include `done`):
   * a `)` ends the list and is consumed; otherwise an expression, then a
   * comma is expected unless the closing `)` follows.  When an iteration
   * consumes nothing the next one starts in the same state, so the loop
   * never ends.
   */
  function ArgumentList(ts: seq<SyntaxToken>, envs: seq<Scope>, j: nat, args: seq<Node>, done: seq<string>): (r: Phrase<seq<Node>>)
    requires SentinelLast(ts) && j < |ts|
    ensures r.result.Ok? ==> j < r.next < |ts|
    decreases |ts| - j, 3
  {
    if ts[j].kind == CloseParen then Phrase(Ok(args), j + 1, done)
    else
      var e := Expression(ts, envs, j);
      if e.result.Fail? then Phrase(Fail(e.result.abrupt), e.next, done + e.reports)
      else
        var c := AfterArgument(ts, e);
        if c.0 == j then Phrase(Fail(ArgumentsStall), j, done + e.reports + c.1)
        else ArgumentList(ts, envs, c.0, args + [e.result.value], done + e.reports + c.1)
  }

  /**
   * The reports made before the argument list only prefix the ones it
   * adds; its result and its end do not depend on them.
   */
  lemma {:induction false} ArgumentListShift(ts: seq<SyntaxToken>, envs: seq<Scope>, j: nat, args: seq<Node>, d1: seq<string>, d2: seq<string>)
    requires SentinelLast(ts) && j < |ts|
    ensures var a := ArgumentList(ts, envs, j, args, d1 + d2);
      var b := ArgumentList(ts, envs, j, args, d2);
      a.result == b.result && a.next == b.next && a.reports == d1 + b.reports
    decreases |ts| - j, 1
  {
    var e := Expression(ts, envs, j);
    if ts[j].kind != CloseParen && e.result.Ok? && AfterArgument(ts, e).0 != j {
      ArgumentListShiftOn(ts, envs, j, args, d1, d2);
    } else {
      ArgumentListShiftStops(ts, envs, j, args, d1, d2);
    }
  }

  /** `ArgumentListShift` for a list that ends at `j` or with its first argument. */
  lemma ArgumentListShiftStops(ts: seq<SyntaxToken>, envs: seq<Scope>, j: nat, args: seq<Node>, d1: seq<string>, d2: seq<string>)
    requires SentinelLast(ts) && j < |ts|
    requires var e := Expression(ts, envs, j);
      ts[j].kind == CloseParen || e.result.Fail? || AfterArgument(ts, e).0 == j
    ensures var a := ArgumentList(ts, envs, j, args, d1 + d2);
      var b := ArgumentList(ts, envs, j, args, d2);
      a.result == b.result && a.next == b.next && a.reports == d1 + b.reports
  {
    var e := Expression(ts, envs, j);
    if ts[j].kind != CloseParen {
      var mine := if e.result.Fail? then e.reports else e.reports + AfterArgument(ts, e).1;
      assert ArgumentList(ts, envs, j, args, d1 + d2).reports == (d1 + d2) + mine;
      assert ArgumentList(ts, envs, j, args, d2).reports == d2 + mine;
      assert (d1 + d2) + mine == d1 + (d2 + mine);
    }
  }

  /** `ArgumentListShift` for a list that goes on past its first argument. */
  lemma {:induction false} ArgumentListShiftOn(ts: seq<SyntaxToken>, envs: seq<Scope>, j: nat, args: seq<Node>, d1: seq<string>, d2: seq<string>)
    requires SentinelLast(ts) && j < |ts| && ts[j].kind != CloseParen
    requires var e := Expression(ts, envs, j); e.result.Ok? && AfterArgument(ts, e).0 != j
    ensures var a := ArgumentList(ts, envs, j, args, d1 + d2);
      var b := ArgumentList(ts, envs, j, args, d2);
      a.result == b.result && a.next == b.next && a.reports == d1 + b.reports
    decreases |ts| - j, 0
  {
    var e := Expression(ts, envs, j);
    var c := AfterArgument(ts, e);
    var mine := e.reports + c.1;
    ArgumentListGoesOn(ts, envs, j, args, d1 + d2);
    ArgumentListGoesOn(ts, envs, j, args, d2);
    assert (d1 + d2) + mine == d1 + (d2 + mine);
    ArgumentListShift(ts, envs, c.0, args + [e.result.value], d1, d2 + mine);
  }

  /** An argument list that goes on past its first argument. */
  lemma ArgumentListGoesOn(ts: seq<SyntaxToken>, envs: seq<Scope>, j: nat, args: seq<Node>, done: seq<string>)
    requires SentinelLast(ts) && j < |ts| && ts[j].kind != CloseParen
    requires var e := Expression(ts, envs, j); e.result.Ok? && AfterArgument(ts, e).0 != j
    ensures var e := Expression(ts, envs, j);
      var c := AfterArgument(ts, e);
      ArgumentList(ts, envs, j, args, done) == ArgumentList(ts, envs, c.0, args + [e.result.value], done + (e.reports + c.1))
  {
    var e := Expression(ts, envs, j);
    var c := AfterArgument(ts, e);
    assert done + e.reports + c.1 == done + (e.reports + c.1);
  }

  /** An argument list that ends at `j` or with its first argument: what it reports past `done`. */
  lemma ArgumentListStops(ts: seq<SyntaxToken>, envs: seq<Scope>, j: nat, args: seq<Node>, done: seq<string>)
    requires SentinelLast(ts) && j < |ts|
    requires var e := Expression(ts, envs, j);
      ts[j].kind == CloseParen || e.result.Fail? || AfterArgument(ts, e).0 == j
    ensures var e := Expression(ts, envs, j);
      var a := ArgumentList(ts, envs, j, args, done);
      if ts[j].kind == CloseParen then a == Phrase(Ok(args), j + 1, done)
      else if e.result.Fail? then a == Phrase(Fail(e.result.abrupt), e.next, done + e.reports)
      else a == Phrase(Fail(ArgumentsStall), j, done + (e.reports + AfterArgument(ts, e).1))
  {
    var e := Expression(ts, envs, j);
    if ts[j].kind != CloseParen && e.result.Ok? {
      assert done + e.reports + AfterArgument(ts, e).1 == done + (e.reports + AfterArgument(ts, e).1);
    }
  }

  /**
   * One iteration of the `Arguments` loop from `j`, with `args` collected
   * and `reports` made so far, yields `r`, stops at `k` and leaves
   * `after` reported.
   */
  predicate OneArgument(ts: seq<SyntaxToken>, envs: seq<Scope>, j: nat, args: seq<Node>, reports: seq<string>,
                        r: Res<seq<Node>>, k: nat, after: seq<string>)
    requires SentinelLast(ts) && j < |ts|
  {
    var e := Expression(ts, envs, j);
    (e.result.Fail? ==> r == Fail(e.result.abrupt) && after == reports + e.reports) &&
    (e.result.Ok? ==>
      var c := AfterArgument(ts, e);
      after == reports + e.reports + c.1 &&
      (c.0 == j ==> r == Fail(ArgumentsStall)) &&
      (c.0 != j ==> r == Ok(args + [e.result.value]) && k == c.0))
  }

  /** An iteration of the loop either ends the list with its failure or leaves the rest of it ahead. */
  lemma ArgumentListStep(ts: seq<SyntaxToken>, envs: seq<Scope>, j: nat, args: seq<Node>, reports: seq<string>,
                         r: Res<seq<Node>>, k: nat, after: seq<string>)
    requires SentinelLast(ts) && j < |ts| && ts[j].kind != CloseParen && k < |ts|
    requires OneArgument(ts, envs, j, args, reports, r, k, after)
    ensures var a := ArgumentList(ts, envs, j, args, reports);
      (r.Fail? ==> r == a.result && after == a.reports) &&
      (r.Ok? ==> j < k && a == ArgumentList(ts, envs, k, r.value, after))
  {
  }

  /** The value `x = e` stores, and the one `x op= e` desugars into: `x op e`. */
  function AssignedNode(id: string, k: TokenKind, value: Node): Node
    requires IsCompound(k) || k == Equal
  {
    if k == Equal then value else BinaryExpression(IdentifierNode(id), CompoundOperator(k), value)
  }

  /**
   * `x = e;` or `x op= e;` once `e` is parsed: a failed `e` is the result,
   * otherwise the assignment, with `;` expected after `e`.
   */
  function Assigned(ts: seq<SyntaxToken>, e: Phrase<Node>, id: string, k: TokenKind): Phrase<Node>
    requires SentinelLast(ts) && (e.result.Ok? ==> e.next < |ts|) && (IsCompound(k) || k == Equal)
  {
    if e.result.Fail? then e
    else
      var (m, rep) := ExpectAt(ts, e.next, Semicolon);
      Phrase(Ok(VarAssignment(id, AssignedNode(id, k, e.result.value))), m, e.reports + rep)
  }

  /**
   * `VarAssignmentStatement`: `x++;`, `x+++;` and `x--;` assign `x + 1`,
   * `x + 2` and `x - 1`; `x op= e;` assigns `x op e`; `x = e;` assigns
   * `e`; without an assignment operator the identifier starts a term.
   */
  function Assignment(ts: seq<SyntaxToken>, envs: seq<Scope>, i: nat): (r: Phrase<Node>)
    requires SentinelLast(ts) && i < |ts| && ts[i].kind == Identifier
    ensures r.result.Ok? ==> i <= r.next < |ts|
    ensures r.result.Ok? && r.next == i ==> r.result.value == Null
    decreases |ts| - i, 0
  {
    var id := ts[i].value;
    var k := ts[i + 1].kind;
    if k == PlusPlus || k == TriplePlus || k == MinusMinus then
      var (op, n) := Increment(k);
      var (m, rep) := ExpectAt(ts, i + 2, Semicolon);
      Phrase(Ok(VarAssignment(id, BinaryExpression(IdentifierNode(id), op, NumberNode(Int(n))))), m, rep)
    else if IsCompound(k) || k == Equal then Assigned(ts, Expression(ts, envs, i + 2), id, k)
    else Lifted(Term(ts, envs, i), i)
  }

  /** `Assignment` after an increment operator. */
  lemma AssignmentIncrement(ts: seq<SyntaxToken>, envs: seq<Scope>, i: nat)
    requires SentinelLast(ts) && i < |ts| && ts[i].kind == Identifier
    requires var k := ts[i + 1].kind; k == PlusPlus || k == TriplePlus || k == MinusMinus
    ensures var id := ts[i].value;
      var (op, n) := Increment(ts[i + 1].kind);
      var (m, rep) := ExpectAt(ts, i + 2, Semicolon);
      Assignment(ts, envs, i) == Phrase(Ok(VarAssignment(id, BinaryExpression(IdentifierNode(id), op, NumberNode(Int(n))))), m, rep)
  {
  }

  /** `Assignment` after `=` or a compound operator. */
  lemma AssignmentValue(ts: seq<SyntaxToken>, envs: seq<Scope>, i: nat)
    requires SentinelLast(ts) && i < |ts| && ts[i].kind == Identifier
    requires var k := ts[i + 1].kind; IsCompound(k) || k == Equal
    ensures Assignment(ts, envs, i) == Assigned(ts, Expression(ts, envs, i + 2), ts[i].value, ts[i + 1].kind)
  {
  }

  /** `Assignment` with no assignment operator after the identifier. */
  lemma AssignmentTerm(ts: seq<SyntaxToken>, envs: seq<Scope>, i: nat)
    requires SentinelLast(ts) && i < |ts| && ts[i].kind == Identifier
    requires var k := ts[i + 1].kind; !(k == PlusPlus || k == TriplePlus || k == MinusMinus || IsCompound(k) || k == Equal)
    ensures Assignment(ts, envs, i) == Lifted(Term(ts, envs, i), i)
  {
  }

  // ----- statements -----

  /** What the parser holds besides its cursor: the reports, its scope stack and the function table. */
  datatype Snapshot = Snapshot(reports: seq<string>, envs: seq<Scope>, funcs: map<string, FuncVariable>)

  /** A statement-level production's result, the position after it, and the state it leaves. */
  datatype Done<T> = Done(result: Res<T>, next: nat, after: Snapshot)

  function Reported(s: Snapshot, rep: seq<string>): Snapshot {
    s.(reports := s.reports + rep)
  }

  /** Scope `y` keeps every binding of scope `x`. */
  predicate Extends(x: Scope, y: Scope) {
    forall id | id in x :: id in y && y[id] == x[id]
  }

  /**
   * The parser's stack `b` grew from `a`: no scope was popped, and every
   * scope kept its bindings (the parser only adds variables and pushes
   * scopes).
   */
  predicate Grows(a: seq<Scope>, b: seq<Scope>) {
    |a| <= |b| && forall k | 0 <= k < |a| :: Extends(a[k], b[k])
  }

  /**
   * `EnvStack::Add` on the parser's stack, whose cursor is on the top:
   * the variable is declared in the top scope; a duplicate is printed and
   * changes nothing; with no scope at all, `GetRef` throws a pointer.
   */
  function AddVariable(envs: seq<Scope>, v: Variable): (r: Res<seq<Scope>>)
    ensures r.Fail? <==> envs == []
    ensures r.Ok? ==> |r.value| == |envs| && r.value[..|envs| - 1] == envs[..|envs| - 1]
    ensures r.Ok? ==> v.identifier in r.value[|envs| - 1]
  {
    if envs == [] then Fail(NoEnvironment)
    else
      match Declare(envs[|envs| - 1], v)
      case Ok(top) => Ok(envs[|envs| - 1 := top])
      case Fail(_) => Ok(envs)
  }

  /** The type keyword and the name at the start of a declaration or a parameter. */
  datatype TypedId = TypedId(kw: TokenKind, id: string)

  /**
   * The type keywords and the name that start a declaration or a
   * parameter (`FindVarType`, then `Expect(IDENTIFIER)`): the last type
   * keyword consumed and the name.  A missing type throws once the name
   * has been expected.
   */
  function TypedName(ts: seq<SyntaxToken>, j: nat): (r: Phrase<TypedId>)
    requires SentinelLast(ts) && j < |ts|
    ensures j <= r.next < |ts|
    ensures r.result.Ok? ==> j < r.next && r.result.value.kw.IsTypeKeyword()
  {
    TypeEndFacts(ts, j);
    NameAfterType(ts, j, TypeEnd(ts, j, 0))
  }

  /**
   * The rest of `TypedName` once the type keywords from `j` end at `e`:
   * the name is expected, and the last keyword is its type unless there
   * was none.
   */
  function NameAfterType(ts: seq<SyntaxToken>, j: nat, e: nat): (r: Phrase<TypedId>)
    requires SentinelLast(ts) && j <= e < |ts|
    ensures e <= r.next < |ts|
    ensures r.result.Ok? <==> j < e
    ensures r.result.Ok? ==> r.result.value.kw == ts[e - 1].kind
  {
    var x := ExpectAt(ts, e, Identifier);
    var id := if ts[e].kind == Identifier then ts[e].value else Placeholder.value;
    if e == j then Phrase(Fail(InvalidArgument(MissingType(id))), x.0, x.1)
    else Phrase(Ok(TypedId(ts[e - 1].kind, id)), x.0, x.1)
  }

  /** One formal parameter: a variable of the declared type, with no value yet. */
  function Parameter(ts: seq<SyntaxToken>, j: nat): (r: Phrase<Variable>)
    requires SentinelLast(ts) && j < |ts|
    ensures j <= r.next < |ts|
    ensures r.result.Ok? ==> j < r.next
  {
    var d := TypedName(ts, j);
    match d.result
    case Fail(a) => Phrase(Fail(a), d.next, d.reports)
    case Ok(TypedId(kw, id)) => Phrase(Ok(Variable(FromToken(kw), id, Empty)), d.next, d.reports)
  }

  /**
   * `Parameters` with `ps` collected and `done` reported so far (the
   * result's reports include `done`): one parameter, then one more after
   * each `,`.
   */
  function ParameterList(ts: seq<SyntaxToken>, j: nat, ps: seq<Variable>, done: seq<string>): (r: Phrase<seq<Variable>>)
    requires SentinelLast(ts) && j < |ts|
    ensures j <= r.next < |ts|
    decreases |ts| - j
  {
    if ps != [] && ts[j].kind != Comma then Phrase(Ok(ps), j, done)
    else
      var p := Parameter(ts, if ps == [] then j else j + 1);
      match p.result
      case Fail(a) => Phrase(Fail(a), p.next, done + p.reports)
      case Ok(v) => ParameterList(ts, p.next, ps + [v], done + p.reports)
  }

  /**
   * One round of `ParameterList`: the parameter at `j` (after the `,`
   * unless it is the first) gives `r`, ending at `k` with `after` reported.
   */
  lemma ParameterListStep(ts: seq<SyntaxToken>, j: nat, ps: seq<Variable>, done: seq<string>,
                          at: nat, r: Res<Variable>, k: nat, after: seq<string>)
    requires SentinelLast(ts) && j < |ts| && (ps == [] || ts[j].kind == Comma)
    requires at == if ps == [] then j else j + 1
    requires at < |ts| && r == Parameter(ts, at).result && after == done + Parameter(ts, at).reports
    requires r.Ok? ==> k == Parameter(ts, at).next
    ensures var a := ParameterList(ts, j, ps, done);
      && (r.Fail? ==> a.result == Fail(r.abrupt) && a.reports == after)
      && (r.Ok? ==> k < |ts| && a == ParameterList(ts, k, ps + [r.value], after))
  {
  }

  /** `Parameters`, after `done` was reported. */
  function FormalParameters(ts: seq<SyntaxToken>, j: nat, done: seq<string>): (r: Phrase<seq<Variable>>)
    requires SentinelLast(ts) && j < |ts|
    ensures j <= r.next < |ts|
  {
    ParameterList(ts, j, [], done)
  }

  /**
   * `ParsePrintStatement`: the `print` keyword, an expression, and a `;`
   * that is expected only when the expression is not empty.
   */
  function Print(ts: seq<SyntaxToken>, i: nat, s: Snapshot): (r: Done<Node>)
    requires SentinelLast(ts) && i < |ts| && ts[i].kind == PrintKw
    ensures r.result.Ok? ==> i < r.next < |ts| && r.result.value.PrintStmt?
    ensures Grows(s.envs, r.after.envs)
  {
    var e := Expression(ts, s.envs, i + 1);
    match e.result
    case Fail(a) => Done(Fail(a), e.next, Reported(s, e.reports))
    case Ok(x) =>
      var c := if x != Null then ExpectAt(ts, e.next, Semicolon) else (e.next, []);
      Done(Ok(PrintStmt(x)), c.0, Reported(Reported(s, e.reports), c.1))
  }

  /**
   * `VarDeclarationStatement`: the type keywords and the name, then the
   * variable is added to the scope stack, and only then is the optional
   * initializer parsed, so a literal initializer already takes the
   * declared width.
   */
  function VariableDeclaration(ts: seq<SyntaxToken>, i: nat, s: Snapshot): (r: Done<Node>)
    requires SentinelLast(ts) && i < |ts|
    ensures r.result.Ok? ==> i < r.next < |ts| && r.result.value.VarDeclaration?
    ensures Grows(s.envs, r.after.envs)
  {
    var d := TypedName(ts, i);
    match d.result
    case Fail(a) => Done(Fail(a), d.next, Reported(s, d.reports))
    case Ok(t) => Declared(ts, d.next, Reported(s, d.reports), t)
  }

  /** The rest of `VarDeclarationStatement` once the type and the name `t` end at `m`. */
  function Declared(ts: seq<SyntaxToken>, m: nat, s: Snapshot, t: TypedId): (r: Done<Node>)
    requires SentinelLast(ts) && m < |ts|
    ensures r.result.Ok? ==> m <= r.next < |ts| && r.result.value.VarDeclaration?
    ensures Grows(s.envs, r.after.envs)
  {
    match AddVariable(s.envs, Variable(FromToken(t.kw), t.id, Empty))
    case Fail(a) => Done(Fail(a), m, s)
    case Ok(envs) => Initializer(ts, m, s.(envs := envs), t.kw, t.id)
  }

  /** The rest of `VarDeclarationStatement`: an optional `= expression`, then `;`. */
  function Initializer(ts: seq<SyntaxToken>, m: nat, s: Snapshot, kw: TokenKind, id: string): (r: Done<Node>)
    requires SentinelLast(ts) && m < |ts|
    ensures r.result.Ok? ==> m <= r.next < |ts| && r.result.value.VarDeclaration?
    ensures Grows(s.envs, r.after.envs)
  {
    if ts[m].kind == Equal then Initialized(ts, m + 1, s, kw, id)
    else
      var c := ExpectAt(ts, m, Semicolon);
      Done(Ok(VarDeclaration(kw, id, Null)), c.0, Reported(s, c.1))
  }

  /** The initializer after `=` at `j - 1`, and the `;`. */
  function Initialized(ts: seq<SyntaxToken>, j: nat, s: Snapshot, kw: TokenKind, id: string): (r: Done<Node>)
    requires SentinelLast(ts) && j < |ts|
    ensures r.result.Ok? ==> j <= r.next < |ts| && r.result.value.VarDeclaration?
    ensures Grows(s.envs, r.after.envs)
  {
    var x := Expression(ts, s.envs, j);
    match x.result
    case Fail(a) => Done(Fail(a), x.next, Reported(s, x.reports))
    case Ok(init) =>
      var c := ExpectAt(ts, x.next, Semicolon);
      Done(Ok(VarDeclaration(kw, id, init)), c.0, Reported(Reported(s, x.reports), c.1))
  }

  /**
   * `ParseStatement`: `print`, a declaration after a type keyword, `if`, a
   * block after `{`, and an expression otherwise.  A non-empty statement
   * always consumes a token.
   */
  function Statement(ts: seq<SyntaxToken>, i: nat, s: Snapshot): (r: Done<Node>)
    requires SentinelLast(ts) && i < |ts|
    ensures r.result.Ok? ==> i <= r.next < |ts|
    ensures r.result.Ok? && r.next == i ==> r.result.value == Null
    ensures Grows(s.envs, r.after.envs)
    decreases |ts| - i, 3
  {
    var k := ts[i].kind;
    if k == PrintKw then Print(ts, i, s)
    else if k.IsTypeKeyword() then Declaration(ts, i, s)
    else if k == IfKw then If(ts, i, s)
    else if k == OpenCurly then Block(ts, i, s, [])
    else
      var e := Expression(ts, s.envs, i);
      Done(e.result, e.next, Reported(s, e.reports))
  }

  /**
   * `DeclarationStatement`: a type keyword followed by a name declares a
   * function when `(` comes next, a variable otherwise; anything else is
   * no statement.
   */
  function Declaration(ts: seq<SyntaxToken>, i: nat, s: Snapshot): (r: Done<Node>)
    requires SentinelLast(ts) && i < |ts| && ts[i].kind.IsTypeKeyword()
    ensures r.result.Ok? ==> i <= r.next < |ts|
    ensures r.result.Ok? && r.next == i ==> r.result.value == Null
    ensures Grows(s.envs, r.after.envs)
    decreases |ts| - i, 2
  {
    if TokenAt(ts, i + 1).kind == Identifier then
      if TokenAt(ts, i + 2).kind == OpenParen then FunctionDeclaration(ts, i, s)
      else VariableDeclaration(ts, i, s)
    else Done(Ok(Null), i, s)
  }

  /** The signature of a declared function: its return type, its name and its formal parameters. */
  datatype Header = Header(returnType: DataType, id: string, params: seq<Variable>)

  /**
   * The part of `FunctionDeclarationStatement` before the body, after
   * `done` was reported: type, name and the parenthesised parameters.  A
   * missing type throws once the name has been expected.
   */
  function FunctionHeader(ts: seq<SyntaxToken>, i: nat, done: seq<string>): (r: Phrase<Header>)
    requires SentinelLast(ts) && i < |ts|
    ensures i <= r.next < |ts|
    ensures r.result.Ok? ==> i < r.next
  {
    var d := TypedName(ts, i);
    match d.result
    case Fail(a) => Phrase(Fail(a), d.next, done + d.reports)
    case Ok(TypedId(kw, id)) =>
      var p := Signature(ts, d.next, done + d.reports);
      match p.result
      case Fail(a) => Phrase(Fail(a), p.next, p.reports)
      case Ok(params) => Phrase(Ok(Header(FromToken(kw), id, params)), p.next, p.reports)
  }

  /** The parameters, or none when `)` comes at once, after `done` was reported. */
  function OptionalParameters(ts: seq<SyntaxToken>, j: nat, done: seq<string>): (r: Phrase<seq<Variable>>)
    requires SentinelLast(ts) && j < |ts|
    ensures j <= r.next < |ts|
  {
    if ts[j].kind == CloseParen then Phrase(Ok([]), j, done)
    else FormalParameters(ts, j, done)
  }

  /** `(`, the parameters unless `)` comes at once, and `)`, after `done` was reported. */
  function Signature(ts: seq<SyntaxToken>, j: nat, done: seq<string>): (r: Phrase<seq<Variable>>)
    requires SentinelLast(ts) && j < |ts|
    ensures j <= r.next < |ts|
  {
    var o := ExpectAt(ts, j, OpenParen);
    var ps := OptionalParameters(ts, o.0, done + o.1);
    match ps.result
    case Fail(a) => Phrase(Fail(a), ps.next, ps.reports)
    case Ok(params) =>
      var c := ExpectAt(ts, ps.next, CloseParen);
      Phrase(Ok(params), c.0, ps.reports + c.1)
  }

  /**
   * `FunctionDeclarationStatement`: the signature, then the body block
   * seeded with the parameters; the function then goes into the table, and
   * the statement itself is empty.
   */
  function FunctionDeclaration(ts: seq<SyntaxToken>, i: nat, s: Snapshot): (r: Done<Node>)
    requires SentinelLast(ts) && i < |ts|
    ensures r.result.Ok? ==> i < r.next < |ts| && r.result.value == Null
    ensures Grows(s.envs, r.after.envs)
    decreases |ts| - i, 1
  {
    var h := FunctionHeader(ts, i, s.reports);
    match h.result
    case Fail(a) => Done(Fail(a), h.next, s.(reports := h.reports))
    case Ok(header) => FunctionBody(ts, h.next, s.(reports := h.reports), header)
  }

  /**
   * The rest of `FunctionDeclarationStatement` once the signature ends at
   * `j`: the body block, then the function goes into the table unless its
   * name is already there.
   */
  function FunctionBody(ts: seq<SyntaxToken>, j: nat, s: Snapshot, header: Header): (r: Done<Node>)
    requires SentinelLast(ts) && j < |ts|
    ensures r.result.Ok? ==> j <= r.next < |ts| && r.result.value == Null
    ensures r.result.Ok? ==> header.id in r.after.funcs
    ensures Grows(s.envs, r.after.envs)
    decreases |ts| - j, 6
  {
    var b := Block(ts, j, s, header.params);
    match b.result
    case Fail(a) => b
    case Ok(body) =>
      if header.id in b.after.funcs then
        Done(Fail(InvalidArgument(FunctionMemories.AlreadyDeclared(header.id))), b.next, b.after)
      else
        Done(Ok(Null), b.next, b.after.(funcs := b.after.funcs[header.id := FuncVariable(header.returnType, header.id, body, header.params)]))
  }

  /** `ParseIfStatement`: `if`, `(`, the condition, `)`, and a block. */
  function If(ts: seq<SyntaxToken>, i: nat, s: Snapshot): (r: Done<Node>)
    requires SentinelLast(ts) && i < |ts| && ts[i].kind == IfKw
    ensures r.result.Ok? ==> i < r.next < |ts| && r.result.value.IfStmt?
    ensures Grows(s.envs, r.after.envs)
    decreases |ts| - i, 1
  {
    var o := ExpectAt(ts, i + 1, OpenParen);
    var e := Expression(ts, s.envs, o.0);
    match e.result
    case Fail(a) => Done(Fail(a), e.next, Reported(Reported(s, o.1), e.reports))
    case Ok(condition) => IfThen(ts, e.next, Reported(Reported(s, o.1), e.reports), condition)
  }

  /** The rest of `ParseIfStatement` once the condition ends at `j`: `)` and the block. */
  function IfThen(ts: seq<SyntaxToken>, j: nat, s: Snapshot, condition: Node): (r: Done<Node>)
    requires SentinelLast(ts) && j < |ts|
    ensures r.result.Ok? ==> j <= r.next < |ts| && r.result.value.IfStmt?
    ensures Grows(s.envs, r.after.envs)
    decreases |ts| - j, 6
  {
    var c := ExpectAt(ts, j, CloseParen);
    var b := Block(ts, c.0, Reported(s, c.1), []);
    match b.result
    case Fail(a) => b
    case Ok(body) => Done(Ok(IfStmt(condition, body)), b.next, b.after)
  }

  /**
   * `ParseBlockStatement(params)`: `{`, then a new scope holding the
   * parameters is pushed (and never popped), then statements up to the
   * first empty one or `}`, then `}`.
   */
  function Block(ts: seq<SyntaxToken>, i: nat, s: Snapshot, params: seq<Variable>): (r: Done<Node>)
    requires SentinelLast(ts) && i < |ts|
    ensures r.result.Ok? ==> i <= r.next < |ts| && r.result.value.BlockStmt?
    ensures Grows(s.envs, r.after.envs)
    ensures Seed(params).Ok? ==> Grows(s.envs + [Seed(params).value], r.after.envs)
    decreases |ts| - i, if ts[i].kind == OpenCurly then 0 else 5
  {
    var o := ExpectAt(ts, i, OpenCurly);
    match Seed(params)
    case Fail(a) => Done(Fail(a), o.0, Reported(s, o.1))
    case Ok(scope) => BlockBody(ts, o.0, Reported(s, o.1).(envs := s.envs + [scope]), [])
  }

  /** The loop of `ParseBlockStatement` with the statements collected so far, and the closing `}`. */
  function BlockBody(ts: seq<SyntaxToken>, j: nat, s: Snapshot, stmts: seq<Node>): (r: Done<Node>)
    requires SentinelLast(ts) && j < |ts|
    ensures r.result.Ok? ==> j <= r.next < |ts| && r.result.value.BlockStmt?
    ensures Grows(s.envs, r.after.envs)
    decreases |ts| - j, 4
  {
    if ts[j].kind == CloseCurly then Done(Ok(BlockStmt(stmts)), j + 1, s)
    else
      var st := Statement(ts, j, s);
      match st.result
      case Fail(a) => st
      case Ok(node) =>
        if node == Null then
          var c := ExpectAt(ts, st.next, CloseCurly);
          Done(Ok(BlockStmt(stmts)), c.0, Reported(st.after, c.1))
        else BlockBody(ts, st.next, st.after, stmts + [node])
  }

  /**
   * The loop of `Parse` with the statements collected so far: it stops at
   * the end or a bad token, once anything has been reported, and at the
   * first empty statement.  A thrown `std::invalid_argument` is reported
   * and ends the loop; any other exception escapes.
   */
  function ParseFrom(ts: seq<SyntaxToken>, i: nat, s: Snapshot, stmts: seq<Node>): (r: Done<seq<Node>>)
    requires SentinelLast(ts) && i < |ts|
    decreases |ts| - i
  {
    if ts[i].kind.IsSentinel() || s.reports != [] then Done(Ok(stmts), i, s)
    else
      var st := Statement(ts, i, s);
      match st.result
      case Fail(a) =>
        if a.Catchable() then Done(Ok(stmts), st.next, Reported(st.after, [a.msg]))
        else Done(Fail(a), st.next, st.after)
      case Ok(node) =>
        if node == Null then Done(Ok(stmts), st.next, st.after)
        else ParseFrom(ts, st.next, st.after, stmts + [node])
  }
}
