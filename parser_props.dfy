/**
 * Properties of the parser's specification: how the two expression
 * ladders group operators, how the assignment operators desugar, what the
 * statement loop returns, and the closing parenthesis of a call.
 */
module ParserProps {
  import opened Outcomes
  import opened Tokens
  import opened Values
  import opened Ast
  import opened Variables
  import opened Environments
  import opened EnvStacks
  import opened Lexing
  import opened ParserSpec
  import opened StatementSpec

  // ----- precedence climbing: ParseBinaryExpression -----

  /** An operand of a chain: a primary of one token that is no prefix operator. */
  predicate OperandAt(ts: seq<SyntaxToken>, envs: seq<Scope>, j: nat, x: Node)
    requires SentinelLast(ts)
  {
    j + 1 < |ts| && UnaryPrecedence(ts[j].kind) == 0 && Primary(ts, envs, j) == Ok(Parsed(x, j + 1))
  }

  /** A climb at level `parent` over an operand followed by no tighter operator is that operand. */
  lemma ClimbSingle(ts: seq<SyntaxToken>, envs: seq<Scope>, j: nat, x: Node, parent: int)
    requires SentinelLast(ts) && OperandAt(ts, envs, j, x)
    requires BinaryPrecedence(ts[j + 1].kind) == 0 || BinaryPrecedence(ts[j + 1].kind) <= parent
    ensures Climb(ts, envs, j, parent) == Ok(Parsed(x, j + 1))
  {
    ClimbSplit(ts, envs, j, parent);
    ClimbOperandCases(ts, envs, j, parent);
  }

  /** A climb that starts on a plain operand continues with that operand as its left side. */
  lemma ClimbAfterOperand(ts: seq<SyntaxToken>, envs: seq<Scope>, j: nat, x: Node, parent: int)
    requires SentinelLast(ts) && OperandAt(ts, envs, j, x)
    ensures Climb(ts, envs, j, parent) == ClimbLoop(ts, envs, j + 1, x, parent)
  {
    ClimbSplit(ts, envs, j, parent);
    ClimbOperandCases(ts, envs, j, parent);
  }

  /**
   * `a op1 b op2 c` where `op2` has the larger table value: `op2` is folded
   * into the right operand of `op1`, so `a * b + c` groups as `a * (b + c)`.
   */
  lemma ClimbGroupsRight(ts: seq<SyntaxToken>, envs: seq<Scope>, i: nat, a: Node, b: Node, c: Node)
    requires SentinelLast(ts)
    requires OperandAt(ts, envs, i, a) && OperandAt(ts, envs, i + 2, b) && OperandAt(ts, envs, i + 4, c)
    requires BinaryPrecedence(ts[i + 1].kind) != 0 && BinaryPrecedence(ts[i + 5].kind) == 0
    requires BinaryPrecedence(ts[i + 3].kind) > BinaryPrecedence(ts[i + 1].kind)
    ensures Climb(ts, envs, i, 0) ==
      Ok(Parsed(BinaryExpression(a, ts[i + 1].kind, BinaryExpression(b, ts[i + 3].kind, c)), i + 5))
  {
    var op1, op2 := ts[i + 1].kind, ts[i + 3].kind;
    var p1, p2 := BinaryPrecedence(op1), BinaryPrecedence(op2);
    var right := BinaryExpression(b, op2, c);
    ClimbAfterOperand(ts, envs, i, a, 0);
    ClimbLoopStep(ts, envs, i + 1, a, 0);
    ClimbAfterOperand(ts, envs, i + 2, b, p1);
    ClimbLoopStep(ts, envs, i + 3, b, p1);
    ClimbSingle(ts, envs, i + 4, c, p2);
    ClimbLoopStops(ts, envs, i + 5, right, p1);
    ClimbLoopStops(ts, envs, i + 5, BinaryExpression(a, op1, right), 0);
  }

  /**
   * `a op1 b op2 c` where `op2` has a table value no larger than `op1`'s:
   * the chain groups to the left, so `a + b * c` is `(a + b) * c` and
   * `a - b - c` is `(a - b) - c`.
   */
  lemma ClimbGroupsLeft(ts: seq<SyntaxToken>, envs: seq<Scope>, i: nat, a: Node, b: Node, c: Node)
    requires SentinelLast(ts)
    requires OperandAt(ts, envs, i, a) && OperandAt(ts, envs, i + 2, b) && OperandAt(ts, envs, i + 4, c)
    requires BinaryPrecedence(ts[i + 3].kind) != 0 && BinaryPrecedence(ts[i + 5].kind) == 0
    requires BinaryPrecedence(ts[i + 3].kind) <= BinaryPrecedence(ts[i + 1].kind)
    ensures Climb(ts, envs, i, 0) ==
      Ok(Parsed(BinaryExpression(BinaryExpression(a, ts[i + 1].kind, b), ts[i + 3].kind, c), i + 5))
  {
    var op1, op2 := ts[i + 1].kind, ts[i + 3].kind;
    var p1, p2 := BinaryPrecedence(op1), BinaryPrecedence(op2);
    var left := BinaryExpression(a, op1, b);
    ClimbAfterOperand(ts, envs, i, a, 0);
    ClimbLoopStep(ts, envs, i + 1, a, 0);
    ClimbAfterOperand(ts, envs, i + 2, b, p1);
    ClimbLoopStops(ts, envs, i + 3, b, p1);
    ClimbLoopStep(ts, envs, i + 3, left, 0);
    ClimbSingle(ts, envs, i + 4, c, p2);
    ClimbLoopStops(ts, envs, i + 5, BinaryExpression(left, op2, c), 0);
  }

  // ----- the term/factor ladder: ParseTerm -----

  /** A factor made of one operand not followed by `*` or `/` is that operand. */
  lemma FactorSingle(ts: seq<SyntaxToken>, envs: seq<Scope>, j: nat, x: Node)
    requires SentinelLast(ts) && j + 1 < |ts| && ts[j].kind != Minus && ts[j].kind != Bang
    requires Primary(ts, envs, j) == Ok(Parsed(x, j + 1)) && !IsFactorOperator(ts[j + 1].kind)
    ensures Factor(ts, envs, j) == Ok(Parsed(x, j + 1))
  {
    UnaryIsPrimary(ts, envs, j);
    assert FactorLoop(ts, envs, j + 1, x) == Ok(Parsed(x, j + 1));
  }

  /** A factor of two operands joined by `*` or `/`. */
  lemma FactorPair(ts: seq<SyntaxToken>, envs: seq<Scope>, j: nat, x: Node, y: Node)
    requires SentinelLast(ts) && j + 3 < |ts| && IsFactorOperator(ts[j + 1].kind)
    requires ts[j].kind != Minus && ts[j].kind != Bang && ts[j + 2].kind != Minus && ts[j + 2].kind != Bang
    requires Primary(ts, envs, j) == Ok(Parsed(x, j + 1)) && Primary(ts, envs, j + 2) == Ok(Parsed(y, j + 3))
    requires !IsFactorOperator(ts[j + 3].kind)
    ensures Factor(ts, envs, j) == Ok(Parsed(BinaryExpression(x, ts[j + 1].kind, y), j + 3))
  {
    UnaryIsPrimary(ts, envs, j);
    UnaryIsPrimary(ts, envs, j + 2);
    FactorLoopStep(ts, envs, j + 1, x);
    assert FactorLoop(ts, envs, j + 3, BinaryExpression(x, ts[j + 1].kind, y)) ==
      Ok(Parsed(BinaryExpression(x, ts[j + 1].kind, y), j + 3));
  }

  /**
   * On the identifier-led ladder `*` and `/` bind tighter than `+ - == !=
   * && ||`, whichever side they are on: `a + b * c` groups as
   * `a + (b * c)`.
   */
  lemma TermGroupsFactorRight(ts: seq<SyntaxToken>, envs: seq<Scope>, i: nat, a: Node, b: Node, c: Node)
    requires SentinelLast(ts) && i + 5 < |ts|
    requires forall j :: j in {i, i + 2, i + 4} ==> ts[j].kind != Minus && ts[j].kind != Bang
    requires Primary(ts, envs, i) == Ok(Parsed(a, i + 1)) && Primary(ts, envs, i + 2) == Ok(Parsed(b, i + 3))
    requires Primary(ts, envs, i + 4) == Ok(Parsed(c, i + 5))
    requires IsTermOperator(ts[i + 1].kind) && IsFactorOperator(ts[i + 3].kind)
    requires !IsTermOperator(ts[i + 5].kind) && !IsFactorOperator(ts[i + 5].kind)
    ensures Term(ts, envs, i) == Ok(Parsed(BinaryExpression(a, ts[i + 1].kind, BinaryExpression(b, ts[i + 3].kind, c)), i + 5))
  {
    assert i + 2 in {i, i + 2, i + 4} && i + 4 in {i, i + 2, i + 4};
    FactorSingle(ts, envs, i, a);
    FactorPair(ts, envs, i + 2, b, c);
    TermLoopStep(ts, envs, i + 1, a);
    var whole := BinaryExpression(a, ts[i + 1].kind, BinaryExpression(b, ts[i + 3].kind, c));
    assert TermLoop(ts, envs, i + 5, whole) == Ok(Parsed(whole, i + 5));
  }

  /** `a * b + c` groups as `(a * b) + c` on the identifier-led ladder. */
  lemma TermGroupsFactorLeft(ts: seq<SyntaxToken>, envs: seq<Scope>, i: nat, a: Node, b: Node, c: Node)
    requires SentinelLast(ts) && i + 5 < |ts|
    requires forall j :: j in {i, i + 2, i + 4} ==> ts[j].kind != Minus && ts[j].kind != Bang
    requires Primary(ts, envs, i) == Ok(Parsed(a, i + 1)) && Primary(ts, envs, i + 2) == Ok(Parsed(b, i + 3))
    requires Primary(ts, envs, i + 4) == Ok(Parsed(c, i + 5))
    requires IsFactorOperator(ts[i + 1].kind) && IsTermOperator(ts[i + 3].kind)
    requires !IsTermOperator(ts[i + 5].kind) && !IsFactorOperator(ts[i + 5].kind)
    ensures Term(ts, envs, i) == Ok(Parsed(BinaryExpression(BinaryExpression(a, ts[i + 1].kind, b), ts[i + 3].kind, c), i + 5))
  {
    assert i + 2 in {i, i + 2, i + 4} && i + 4 in {i, i + 2, i + 4};
    FactorPair(ts, envs, i, a, b);
    FactorSingle(ts, envs, i + 4, c);
    var left := BinaryExpression(a, ts[i + 1].kind, b);
    TermLoopStep(ts, envs, i + 3, left);
    var whole := BinaryExpression(left, ts[i + 3].kind, c);
    assert TermLoop(ts, envs, i + 5, whole) == Ok(Parsed(whole, i + 5));
  }

  // ----- assignments -----

  /**
   * `x++;`, `x+++;` and `x--;` are read as `x = x + 1`, `x = x + 2` and
   * `x = x - 1`, with an `int` literal, and consume the semicolon.
   */
  lemma IncrementsDesugar(ts: seq<SyntaxToken>, envs: seq<Scope>, i: nat)
    requires SentinelLast(ts) && i + 3 < |ts| && ts[i].kind == Identifier
    requires ts[i + 1].kind in {PlusPlus, TriplePlus, MinusMinus} && ts[i + 2].kind == Semicolon
    ensures var x := ts[i].value;
      var k := ts[i + 1].kind;
      Expression(ts, envs, i) ==
        Phrase(Ok(VarAssignment(x, BinaryExpression(IdentifierNode(x), if k == MinusMinus then Minus else Plus,
          NumberNode(Int(if k == TriplePlus then 2 else 1))))), i + 3, [])
  {
    AssignmentIncrement(ts, envs, i);
  }

  /**
   * `x op= e;` is read as `x = x op e`, and `x = e;` as itself, both
   * consuming the semicolon after `e`.
   */
  lemma CompoundAssignmentsDesugar(ts: seq<SyntaxToken>, envs: seq<Scope>, i: nat)
    requires SentinelLast(ts) && i + 2 < |ts| && ts[i].kind == Identifier && ts[i + 1].kind != OpenParen
    requires IsCompound(ts[i + 1].kind) || ts[i + 1].kind == Equal
    ensures var e := Expression(ts, envs, i + 2);
      e.result.Ok? && ts[e.next].kind == Semicolon ==>
        var x := ts[i].value;
        var k := ts[i + 1].kind;
        Expression(ts, envs, i) ==
          Phrase(Ok(VarAssignment(x, if k == Equal then e.result.value else BinaryExpression(IdentifierNode(x), CompoundOperator(k), e.result.value))),
            e.next + 1, e.reports)
  {
    AssignmentValue(ts, envs, i);
  }

  // ----- the statement loop: Parse -----

  /**
   * `Parse` only appends to the statements it was given, and never keeps
   * an empty one: a null statement ends the loop instead.
   */
  lemma {:induction false} ParseKeepsNonNull(ts: seq<SyntaxToken>, i: nat, s: Snapshot, stmts: seq<Node>)
    requires SentinelLast(ts) && i < |ts|
    requires forall k :: 0 <= k < |stmts| ==> stmts[k] != Null
    ensures var d := ParseFrom(ts, i, s, stmts);
      d.result.Ok? ==> stmts <= d.result.value && forall k :: 0 <= k < |d.result.value| ==> d.result.value[k] != Null
    decreases |ts| - i
  {
    if !(ts[i].kind.IsSentinel() || s.reports != []) {
      var st := Statement(ts, i, s);
      if st.result.Ok? && st.result.value != Null {
        var more := stmts + [st.result.value];
        ParseKeepsNonNull(ts, st.next, st.after, more);
      }
    }
  }

  /**
   * A function declaration is an empty statement: once one is parsed at
   * the top level, `Parse` returns what came before it and nothing after.
   */
  lemma FunctionDeclarationEndsParse(ts: seq<SyntaxToken>, i: nat, s: Snapshot, stmts: seq<Node>)
    requires SentinelLast(ts) && i + 2 < |ts| && s.reports == []
    requires ts[i].kind.IsTypeKeyword() && ts[i + 1].kind == Identifier && ts[i + 2].kind == OpenParen
    requires Statement(ts, i, s).result.Ok?
    ensures ParseFrom(ts, i, s, stmts).result == Ok(stmts)
  {
    assert Statement(ts, i, s) == FunctionDeclaration(ts, i, s);
  }

  // ----- declarations -----

  /**
   * A declared variable goes into the top scope before its initializer is
   * parsed, so the initializer already sees it with its declared type (a
   * literal initializer takes that width); a duplicate leaves the scopes
   * as they were.
   */
  lemma DeclaredBeforeInitializer(ts: seq<SyntaxToken>, m: nat, s: Snapshot, t: TypedId)
    requires SentinelLast(ts) && m < |ts| && ts[m].kind == Equal && s.envs != []
    ensures var v := Variable(FromToken(t.kw), t.id, Empty);
      var top := s.envs[|s.envs| - 1];
      var e := s.envs[|s.envs| - 1 := top[t.id := v]];
      t.id !in top ==>
        DeclaredType(e, t.id) == Some(FromToken(t.kw)) &&
        Declared(ts, m, s, t) == Initialized(ts, m + 1, s.(envs := e), t.kw, t.id)
    ensures t.id in s.envs[|s.envs| - 1] ==> Declared(ts, m, s, t) == Initialized(ts, m + 1, s, t.kw, t.id)
  {
    var top := s.envs[|s.envs| - 1];
    if t.id !in top {
      var e := s.envs[|s.envs| - 1 := top[t.id := Variable(FromToken(t.kw), t.id, Empty)]];
      TopScopeShadows(e, t.id);
    }
  }

  // ----- the closing parenthesis of a call -----

  /**
   * As written, a call expects a second `)` after the argument list has
   * consumed the first: every well-formed call not followed by `)` adds a
   * report, and a call followed by `)` takes that token too.
   */
  lemma CallAsWrittenWantsTwoParens(ts: seq<SyntaxToken>, envs: seq<Scope>, i: nat)
    requires SentinelLast(ts) && i < |ts| && ts[i].kind == Identifier && TokenAt(ts, i + 1).kind == OpenParen
    requires Call(ts, envs, i).result.Ok?
    ensures var c := Call(ts, envs, i);
      var w := CallAsWritten(ts, envs, i);
      w.result == c.result &&
      (w.reports == c.reports <==> ts[c.next].kind == CloseParen) &&
      (ts[c.next].kind != CloseParen ==> w.reports == c.reports + [ExpectedMessage(CloseParen)] && w.next == c.next) &&
      (ts[c.next].kind == CloseParen ==> w.next == c.next + 1)
  {
  }

  /**
   * The shortest call, `f();`, is rejected as written: the expression
   * parser reads it with one report and stops on the `;`.
   */
  lemma EmptyCallRejectedAsWritten(ts: seq<SyntaxToken>, envs: seq<Scope>, i: nat)
    requires SentinelLast(ts) && i + 3 < |ts| && ts[i].kind == Identifier
    requires ts[i + 1].kind == OpenParen && ts[i + 2].kind == CloseParen && ts[i + 3].kind == Semicolon
    ensures Expression(ts, envs, i) == CallAsWritten(ts, envs, i)
    ensures CallAsWritten(ts, envs, i) == Phrase(Ok(FunctionCall(ts[i].value, [])), i + 3, [ExpectedMessage(CloseParen)])
  {
    assert TokenAt(ts, i + 1) == ts[i + 1];
    assert Call(ts, envs, i) == Phrase(Ok(FunctionCall(ts[i].value, [])), i + 3, []);
  }

  /**
   * With the closing parenthesis expected once, `f()` is a call of no
   * arguments that reports nothing and ends just after its `)`, and
   * `f(e)` passes the one argument `e`.
   */
  lemma CallReadsItsArguments(ts: seq<SyntaxToken>, envs: seq<Scope>, i: nat)
    requires SentinelLast(ts) && i + 2 < |ts| && ts[i].kind == Identifier && ts[i + 1].kind == OpenParen
    ensures ts[i + 2].kind == CloseParen ==>
      Call(ts, envs, i) == Phrase(Ok(FunctionCall(ts[i].value, [])), i + 3, [])
    ensures var e := Expression(ts, envs, i + 2);
      ts[i + 2].kind != CloseParen && e.result.Ok? && e.next > i + 2 && ts[e.next].kind == CloseParen ==>
        Call(ts, envs, i) == Phrase(Ok(FunctionCall(ts[i].value, [e.result.value])), e.next + 1, e.reports)
  {
    assert TokenAt(ts, i + 1) == ts[i + 1];
    var e := Expression(ts, envs, i + 2);
    if ts[i + 2].kind == CloseParen {
      assert ArgumentList(ts, envs, i + 2, [], []) == Phrase(Ok([]), i + 3, []);
    } else if e.result.Ok? && e.next > i + 2 && ts[e.next].kind == CloseParen {
      assert AfterArgument(ts, e) == (e.next, []);
      assert [] + e.reports + [] == e.reports && [] + [e.result.value] == [e.result.value];
      assert ArgumentList(ts, envs, e.next, [e.result.value], e.reports) ==
        Phrase(Ok([e.result.value]), e.next + 1, e.reports);
      assert ArgumentList(ts, envs, i + 2, [], []) == ArgumentList(ts, envs, e.next, [] + [e.result.value], [] + e.reports + []);
    }
  }
}
