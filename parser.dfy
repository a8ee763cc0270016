/**
 * parser.cpp: a recursive-descent parser over the token vector, with a
 * cursor (`index`), the list of reported errors, its own scope stack (used
 * to pick the width of number literals) and the shared function table.
 *
 * The expression methods are proved to compute exactly what the functions
 * of `ParserSpec` say, whenever the scope stack's cursor starts on its top
 * scope (which is where the parser always keeps it).  The statement methods
 * carry contracts on the shape of the node, on what they consume and on the
 * scopes and functions they declare.
 */
module Parsing {
  import opened Outcomes
  import opened Tokens
  import opened Values
  import opened Ast
  import opened Variables
  import opened Environments
  import opened EnvStacks
  import opened FunctionMemories
  import opened Lexing
  import LexerProperties
  import opened ParserSpec
  import opened StatementSpec

  class Parser {
    const tokens: seq<SyntaxToken>
    var index: int
    var errors: seq<string>
    const envStack: EnvStack
    const functionMemory: FunctionMemory

    /**
     * The tokens end with their only sentinel, the cursor is on a token,
     * and the scope stack is consistent.  The parser only consumes tokens
     * it has matched against a non-sentinel kind, so it never moves past
     * the sentinel.
     */
    predicate Valid()
      reads this, envStack
    {
      OnToken() && envStack.Valid() && Settled()
    }

    /** The cursor half of `Valid`, which the token primitives keep. */
    predicate OnToken()
      reads this
    {
      SentinelLast(tokens) && 0 <= index < |tokens|
    }

    /** The scope stack's cursor is on its top scope, where every lookup starts. */
    predicate Settled()
      reads envStack
    {
      envStack.current == envStack.lastIndex
    }

    /** A method's result agrees with the specification's node and end position. */
    predicate Agrees(r: Res<Node>, s: Res<Parsed>)
      reads this
    {
      (r.Ok? <==> s.Ok?) &&
      (s.Ok? ==> r.value == s.value.node && index == s.value.next) &&
      (s.Fail? ==> r.abrupt == s.abrupt)
    }

    constructor(tokens: seq<SyntaxToken>, envStack: EnvStack, functionMemory: FunctionMemory)
      requires SentinelLast(tokens) && envStack.Valid() && envStack.current == envStack.lastIndex
      ensures Valid()
      ensures this.tokens == tokens && index == 0 && errors == []
      ensures this.envStack == envStack && this.functionMemory == functionMemory
    {
      this.tokens := tokens;
      index := 0;
      errors := [];
      this.envStack := envStack;
      this.functionMemory := functionMemory;
    }

    // ----- the cursor -----

    /** `LookAhead(offset)`: the token `offset` places from the cursor, or the last token. */
    function LookAhead(offset: int): (t: SyntaxToken)
      reads this
      requires |tokens| > 0
      ensures t == TokenAt(tokens, index + offset)
    {
      var i := index + offset;
      if 0 <= i < |tokens| then tokens[i] else tokens[|tokens| - 1]
    }

    function Peek(): SyntaxToken
      reads this
      requires |tokens| > 0
    {
      LookAhead(0)
    }

    function PeekNext(): SyntaxToken
      reads this
      requires |tokens| > 0
    {
      LookAhead(1)
    }

    function PeekNextNext(): SyntaxToken
      reads this
      requires |tokens| > 0
    {
      LookAhead(2)
    }

    function Previous(): SyntaxToken
      reads this
      requires |tokens| > 0
    {
      LookAhead(-1)
    }

    function PreviousPrevious(): SyntaxToken
      reads this
      requires |tokens| > 0
    {
      LookAhead(-2)
    }

    /** `Match`: whether the current token has kind `k`. */
    function Match(k: TokenKind): (b: bool)
      reads this
      requires OnToken()
      ensures b <==> tokens[index].kind == k
    {
      Peek().kind == k
    }

    /** `MatchAny`: whether the current token has one of the kinds, tried in order. */
    method MatchAny(kinds: seq<TokenKind>) returns (b: bool)
      requires OnToken()
      ensures b <==> tokens[index].kind in kinds
    {
      for j := 0 to |kinds|
        invariant tokens[index].kind !in kinds[..j]
      {
        if Match(kinds[j]) {
          return true;
        }
      }
      return false;
    }

    /** `IsAtEnd`: the cursor is on the end token or on a bad token. */
    function IsAtEnd(): (b: bool)
      reads this
      requires OnToken()
      ensures b <==> tokens[index].kind.IsSentinel()
      ensures index == |tokens| - 1 ==> b
    {
      index >= |tokens| || tokens[index].kind == BadToken || tokens[index].kind == EndOfFile
    }

    /** `NextToken`: returns the current token and steps over it. */
    method NextToken() returns (t: SyntaxToken)
      requires OnToken() && !tokens[index].kind.IsSentinel()
      modifies this
      ensures OnToken() && t == old(tokens[index]) && index == old(index) + 1
      ensures errors == old(errors)
    {
      t := tokens[index];
      index := index + 1;
    }

    /** `Advance`: steps over the current token. */
    method Advance()
      requires OnToken() && !tokens[index].kind.IsSentinel()
      modifies this
      ensures OnToken() && index == old(index) + 1 && errors == old(errors)
    {
      index := index + 1;
    }

    /** `Back`: steps back one token, unless the cursor is on the first. */
    method Back()
      requires OnToken()
      modifies this
      ensures OnToken() && errors == old(errors)
      ensures index == if old(index) >= 1 then old(index) - 1 else old(index)
    {
      if index - 1 >= 0 {
        index := index - 1;
      }
    }

    method Report(error: string)
      modifies this
      ensures errors == old(errors) + [error] && index == old(index)
    {
      errors := errors + [error];
    }

    /**
     * `Expect`: consumes the token when it has kind `k`; otherwise reports
     * what was expected and returns a placeholder, consuming nothing.
     */
    method Expect(k: TokenKind) returns (t: SyntaxToken)
      requires OnToken() && !k.IsSentinel()
      modifies this
      ensures OnToken()
      ensures old(tokens[index].kind) == k ==>
        t == old(tokens[index]) && index == old(index) + 1 && errors == old(errors)
      ensures old(tokens[index].kind) != k ==>
        t == Placeholder && index == old(index) && errors == old(errors) + [ExpectedMessage(k)]
    {
      if Match(k) {
        t := NextToken();
        return;
      }
      Report(ExpectedMessage(k));
      return Placeholder;
    }

    /** `ExpectOptional`: consumes the token when it has kind `k`, silently otherwise. */
    method ExpectOptional(k: TokenKind) returns (t: Option<SyntaxToken>)
      requires OnToken() && !k.IsSentinel()
      modifies this
      ensures OnToken() && errors == old(errors)
      ensures old(tokens[index].kind) == k ==> t == Some(old(tokens[index])) && index == old(index) + 1
      ensures old(tokens[index].kind) != k ==> t == None && index == old(index)
    {
      if Match(k) {
        var token := NextToken();
        return Some(token);
      }
      return None;
    }

    /**
     * The `n`-th of `FindVarType`'s attempts: the `n`-th type keyword is
     * consumed when it is at the cursor and then becomes the answer.
     */
    method TypeAttempt(n: nat, found: Option<SyntaxToken>) returns (r: Option<SyntaxToken>)
      requires OnToken() && n < 6
      modifies this
      ensures OnToken() && errors == old(errors)
      ensures old(tokens[index].kind) == TypeKeywordAt(n) ==> index == old(index) + 1 && r == Some(old(tokens[index]))
      ensures old(tokens[index].kind) != TypeKeywordAt(n) ==> index == old(index) && r == found
    {
      r := found;
      var t := ExpectOptional(TypeKeywordAt(n));
      if t.Some? {
        var previous := Previous();
        r := Some(previous);
      }
    }

    /**
     * `FindVarType`: tries each type keyword once, in the order of
     * `TypeKeywordAt`, and yields the last one consumed.  A single type
     * keyword is consumed alone; `short int` is consumed whole, `int short`
     * only up to `int`.
     */
    method FindVarType() returns (r: Option<SyntaxToken>)
      requires OnToken()
      modifies this
      ensures OnToken() && errors == old(errors)
      ensures index == TypeEnd(tokens, old(index), 0)
      ensures r.None? <==> index == old(index)
      ensures r.Some? ==> r.value == tokens[index - 1]
    {
      r := None;
      for n := 0 to 6
        invariant OnToken() && errors == old(errors) && old(index) <= index
        invariant TypeEnd(tokens, old(index), 0) == TypeEnd(tokens, index, n)
        invariant index == old(index) ==> r == None
        invariant index > old(index) ==> r == Some(tokens[index - 1])
      {
        TypeAttemptStep(tokens, index, n);
        r := TypeAttempt(n, r);
      }
    }

    // ----- expressions -----

    /** `ParsePrimary`: a literal, a string, an identifier or a boolean; nothing otherwise. */
    method ParsePrimary() returns (r: Res<Node>)
      requires Valid()
      modifies this
      ensures Valid() && errors == old(errors)
      ensures old(index) <= index
      ensures Agrees(r, Primary(tokens, envStack.envs, old(index)))
      decreases |tokens| - index, 1
    {
      if Match(NumberLiteral) {
        r := ParseNumberLiteral();
      } else if Match(StringLiteral) {
        var token := NextToken();
        r := Ok(StringNode(token.value));
      } else if Match(Identifier) {
        var token := NextToken();
        r := Ok(IdentifierNode(token.value));
      } else if Match(False) {
        Advance();
        r := Ok(BoolNode(false));
      } else if Match(True) {
        Advance();
        r := Ok(BoolNode(true));
      } else {
        r := Ok(Null);
      }
    }

    /**
     * The two number-literal branches of `ParsePrimary`: a literal right
     * after `identifier =` takes the width of the identifier's declared
     * type, any other literal is an `int`, or a `double` when it has a dot.
     */
    method ParseNumberLiteral() returns (r: Res<Node>)
      requires Valid() && tokens[index].kind == NumberLiteral
      modifies this
      ensures Valid() && errors == old(errors)
      ensures old(index) <= index
      ensures Agrees(r, NumberLiteralAt(tokens, envStack.envs, old(index)))
      decreases |tokens| - index, 0
    {
      var prev := Previous();
      var prevPrev := PreviousPrevious();
      var token := NextToken();
      var n: Res<Number>;
      if prev.kind == Equal && prevPrev.kind == Identifier {
        var declared := DeclaredType(envStack.envs, prevPrev.value);
        if declared.None? {
          return Fail(InvalidArgument(VariableNotFound(prevPrev.value)));
        }
        n := TypedLiteral(declared.value, token.value);
      } else {
        n := PlainLiteral(token.value);
      }
      r := if n.Ok? then Ok(NumberNode(n.value)) else Fail(n.abrupt);
    }

    /**
     * `ParseBinaryExpression(parent)`: precedence climbing, as `Climb`
     * specifies it.
     */
    method ParseBinaryExpression(parent: int) returns (r: Res<Node>)
      requires Valid()
      modifies this
      ensures Valid() && errors == old(errors)
      ensures old(index) <= index
      ensures Agrees(r, Climb(tokens, envStack.envs, old(index), parent))
      decreases |tokens| - index, 3
    {
      ghost var start := index;
      ClimbSplit(tokens, envStack.envs, index, parent);
      var first := ParseClimbOperand(parent);
      if first.Fail? {
        return first;
      }
      var left := first.value;
      while true
        invariant Valid() && errors == old(errors)
        invariant start <= index
        invariant Climb(tokens, envStack.envs, start, parent) == ClimbLoop(tokens, envStack.envs, index, left, parent)
        decreases |tokens| - index
      {
        var prec := BinaryPrecedence(Peek().kind);
        if prec == 0 || prec <= parent {
          break;
        }
        var next := ClimbOperator(left, parent);
        if next.Fail? {
          return next;
        }
        left := next.value;
      }
      return Ok(left);
    }

    /**
     * The operand `ParseBinaryExpression` starts with: a prefix operator at a
     * level of at least `parent` applied to the climb after it, or a primary.
     */
    method ParseClimbOperand(parent: int) returns (r: Res<Node>)
      requires Valid()
      modifies this
      ensures Valid() && errors == old(errors)
      ensures old(index) <= index
      ensures Agrees(r, ClimbOperand(tokens, envStack.envs, old(index), parent))
      decreases |tokens| - index, 2
    {
      ClimbOperandCases(tokens, envStack.envs, index, parent);
      var unary := UnaryPrecedence(Peek().kind);
      if unary != 0 && unary >= parent {
        var operator := NextToken();
        var operand := ParseBinaryExpression(unary);
        if operand.Fail? {
          return operand;
        }
        return Ok(UnaryNode(operator.kind, operand.value));
      }
      r := ParsePrimary();
    }

    /** The body of the loop in `ParseBinaryExpression`: an operator binding tighter than `parent` and its right operand. */
    method ClimbOperator(left: Node, parent: int) returns (r: Res<Node>)
      requires Valid()
      requires BinaryPrecedence(tokens[index].kind) != 0 && BinaryPrecedence(tokens[index].kind) > parent
      modifies this
      ensures Valid() && errors == old(errors) && old(index) < index
      ensures r.Fail? ==> ClimbLoop(tokens, envStack.envs, old(index), left, parent) == Fail(r.abrupt)
      ensures r.Ok? ==> ClimbLoop(tokens, envStack.envs, old(index), left, parent) == ClimbLoop(tokens, envStack.envs, index, r.value, parent)
      decreases |tokens| - index, 2
    {
      ClimbLoopStep(tokens, envStack.envs, index, left, parent);
      var operator := NextToken();
      var right := ParseBinaryExpression(BinaryPrecedence(operator.kind));
      if right.Fail? {
        return right;
      }
      return Ok(BinaryExpression(left, operator.kind, right.value));
    }

    /** `ParseUnary`: `-` and `!` prefixes in front of a primary, as `Unary` specifies. */
    method ParseUnary() returns (r: Res<Node>)
      requires Valid()
      modifies this
      ensures Valid() && errors == old(errors)
      ensures old(index) <= index
      ensures Agrees(r, Unary(tokens, envStack.envs, old(index)))
      decreases |tokens| - index, 10
    {
      var prefix := MatchAny([Minus, Bang]);
      assert prefix <==> tokens[index].kind == Minus || tokens[index].kind == Bang;
      if prefix {
        UnaryPrefix(tokens, envStack.envs, index);
        var token := NextToken();
        r := ParseUnary();
        if r.Ok? {
          r := Ok(UnaryNode(token.kind, r.value));
        }
      } else {
        UnaryIsPrimary(tokens, envStack.envs, index);
        r := ParsePrimary();
      }
    }

    /** `ParseFactor`: unaries joined by `*` and `/` from the left, as `Factor` specifies. */
    method ParseFactor() returns (r: Res<Node>)
      requires Valid()
      modifies this
      ensures Valid() && errors == old(errors)
      ensures old(index) <= index
      ensures Agrees(r, Factor(tokens, envStack.envs, old(index)))
      decreases |tokens| - index, 12
    {
      ghost var start := index;
      var first := ParseUnary();
      if first.Fail? {
        return first;
      }
      var left := first.value;
      var more := MatchAny([Star, Slash]);
      while more
        invariant Valid() && errors == old(errors)
        invariant start <= index
        invariant more <==> IsFactorOperator(tokens[index].kind)
        invariant Factor(tokens, envStack.envs, start) == FactorLoop(tokens, envStack.envs, index, left)
        decreases |tokens| - index
      {
        var next := FactorOperand(left);
        if next.Fail? {
          return next;
        }
        left := next.value;
        more := MatchAny([Star, Slash]);
      }
      return Ok(left);
    }

    /** The body of the loop in `ParseFactor`: the operator under the cursor and the operand after it. */
    method FactorOperand(left: Node) returns (r: Res<Node>)
      requires Valid() && IsFactorOperator(tokens[index].kind)
      modifies this
      ensures Valid() && errors == old(errors) && old(index) < index
      ensures r.Fail? ==> FactorLoop(tokens, envStack.envs, old(index), left) == Fail(r.abrupt)
      ensures r.Ok? ==> FactorLoop(tokens, envStack.envs, old(index), left) == FactorLoop(tokens, envStack.envs, index, r.value)
      decreases |tokens| - index, 11
    {
      FactorLoopStep(tokens, envStack.envs, index, left);
      var op := NextToken();
      var right := ParseUnary();
      if right.Fail? {
        return right;
      }
      return Ok(BinaryExpression(left, op.kind, right.value));
    }

    /** `ParseTerm`: factors joined by `+ - == && != ||` from the left, as `Term` specifies. */
    method ParseTerm() returns (r: Res<Node>)
      requires Valid()
      modifies this
      ensures Valid() && errors == old(errors)
      ensures old(index) <= index
      ensures Agrees(r, Term(tokens, envStack.envs, old(index)))
      decreases |tokens| - index, 14
    {
      ghost var start := index;
      var first := ParseFactor();
      if first.Fail? {
        return first;
      }
      var left := first.value;
      var more := MatchAny([Plus, Minus, EqualEqual, AmpersandAmpersand, BangEqual, PipePipe]);
      while more
        invariant Valid() && errors == old(errors)
        invariant start <= index
        invariant more <==> IsTermOperator(tokens[index].kind)
        invariant Term(tokens, envStack.envs, start) == TermLoop(tokens, envStack.envs, index, left)
        decreases |tokens| - index
      {
        var next := TermOperand(left);
        if next.Fail? {
          return next;
        }
        left := next.value;
        more := MatchAny([Plus, Minus, EqualEqual, AmpersandAmpersand, BangEqual, PipePipe]);
      }
      return Ok(left);
    }

    /** The body of the loop in `ParseTerm`: the operator under the cursor and the operand after it. */
    method TermOperand(left: Node) returns (r: Res<Node>)
      requires Valid() && IsTermOperator(tokens[index].kind)
      modifies this
      ensures Valid() && errors == old(errors) && old(index) < index
      ensures r.Fail? ==> TermLoop(tokens, envStack.envs, old(index), left) == Fail(r.abrupt)
      ensures r.Ok? ==> TermLoop(tokens, envStack.envs, old(index), left) == TermLoop(tokens, envStack.envs, index, r.value)
      decreases |tokens| - index, 13
    {
      TermLoopStep(tokens, envStack.envs, index, left);
      var op := NextToken();
      var right := ParseFactor();
      if right.Fail? {
        return right;
      }
      return Ok(BinaryExpression(left, op.kind, right.value));
    }

    // ----- expressions that report -----

    /** A method's result, reports and end position agree with a production of `StatementSpec`. */
    predicate Yields<T(==)>(r: Res<T>, p: Phrase<T>, before: seq<string>)
      reads this
    {
      r == p.result && errors == before + p.reports && (r.Ok? ==> index == p.next)
    }

    /** `ParseExpression`, as `Expression` specifies it. */
    method ParseExpression() returns (r: Res<Node>)
      requires Valid()
      modifies this
      ensures Valid()
      ensures Yields(r, Expression(tokens, envStack.envs, old(index)), old(errors))
      decreases |tokens| - index, 16
    {
      if Match(OpenParen) {
        r := Group();
        return;
      }
      if Match(Identifier) && PeekNext().kind == OpenParen {
        r := FunctionCall();
        return;
      }
      if Match(Identifier) && PeekNext().kind != OpenParen {
        r := VarAssignmentStatement();
        return;
      }
      r := ParseBinaryExpression(0);
    }

    /** `Group`: a parenthesised expression, as `Grouped` specifies it. */
    method Group() returns (r: Res<Node>)
      requires Valid() && tokens[index].kind == OpenParen
      modifies this
      ensures Valid()
      ensures Yields(r, Grouped(tokens, envStack.envs, old(index)), old(errors))
      decreases |tokens| - index, 15
    {
      var _ := Expect(OpenParen);
      r := ParseExpression();
      if r.Fail? {
        return;
      }
      var _ := Expect(CloseParen);
    }

    /**
     * `FunctionCall`: the name and the argument list, which consumes the
     * closing parenthesis, and then a second `Expect(CloseParen)`, as
     * `CallAsWritten` specifies it.
     */
    method FunctionCall() returns (r: Res<Node>)
      requires Valid() && tokens[index].kind == Identifier && TokenAt(tokens, index + 1).kind == OpenParen
      modifies this
      ensures Valid()
      ensures Yields(r, CallAsWritten(tokens, envStack.envs, old(index)), old(errors))
      decreases |tokens| - index, 15
    {
      var identifier := Expect(Identifier);
      ArgumentListShift(tokens, envStack.envs, index + 1, [], errors, []);
      assert errors + [] == errors;
      var args := Arguments();
      if args.Fail? {
        return Fail(args.abrupt);
      }
      ghost var called := errors;
      var _ := Expect(CloseParen);
      assert errors == old(errors) + (called[|old(errors)|..] + errors[|called|..]);
      return Ok(Node.FunctionCall(identifier.value, args.value));
    }

    /**
     * `Arguments`: `(`, then expressions separated by commas up to the
     * closing `)`, which is consumed.  An iteration that consumes nothing
     * would repeat forever; the method stops there with `ArgumentsStall`.
     */
    method Arguments() returns (r: Res<seq<Node>>)
      requires Valid()
      modifies this
      ensures Valid()
      ensures var (o, rep) := ExpectAt(tokens, old(index), OpenParen);
        var a := ArgumentList(tokens, envStack.envs, o, [], old(errors) + rep);
        r == a.result && errors == a.reports && (r.Ok? ==> index == a.next)
      decreases |tokens| - index, 18
    {
      ghost var opening := ExpectAt(tokens, index, OpenParen);
      var _ := Expect(OpenParen);
      assert index == opening.0 && errors == old(errors) + opening.1;
      ghost var start := index;
      ghost var before := errors;
      var args: seq<Node> := [];
      while !Match(CloseParen)
        invariant Valid() && start <= index
        invariant ArgumentList(tokens, envStack.envs, start, [], before) == ArgumentList(tokens, envStack.envs, index, args, errors)
        decreases |tokens| - index
      {
        ghost var j := index;
        ghost var reports := errors;
        var next := NextArgument(args);
        ArgumentListStep(tokens, envStack.envs, j, args, reports, next, index, errors);
        if next.Fail? {
          return next;
        }
        args := next.value;
      }
      var _ := Expect(CloseParen);
      return Ok(args);
    }

    /**
     * One iteration of the loop in `Arguments`: an expression, then a
     * comma unless the closing `)` follows; an iteration that would
     * consume nothing stops with `ArgumentsStall`.
     */
    method NextArgument(args: seq<Node>) returns (r: Res<seq<Node>>)
      requires Valid() && tokens[index].kind != CloseParen
      modifies this
      ensures Valid()
      ensures OneArgument(tokens, envStack.envs, old(index), args, old(errors), r, index, errors)
      decreases |tokens| - index, 17
    {
      var j := index;
      var e := ParseExpression();
      if e.Fail? {
        return Fail(e.abrupt);
      }
      if !Match(CloseParen) {
        var _ := Expect(Comma);
        if index == j {
          return Fail(ArgumentsStall);
        }
      }
      return Ok(args + [e.value]);
    }

    /**
     * `VarAssignmentStatement`: the increments, the compound assignments
     * and `=`, as `Assignment` specifies them; with no assignment operator
     * the cursor steps back onto the identifier, which starts a term.
     */
    method VarAssignmentStatement() returns (r: Res<Node>)
      requires Valid() && tokens[index].kind == Identifier
      modifies this
      ensures Valid()
      ensures Yields(r, Assignment(tokens, envStack.envs, old(index)), old(errors))
      decreases |tokens| - index, 15
    {
      var identifier := Expect(Identifier);
      var k := Peek().kind;
      if k == PlusPlus || k == TriplePlus || k == MinusMinus {
        r := Incremented(identifier.value, k);
      } else if IsCompound(k) || k == Equal {
        Advance();
        AssignmentValue(tokens, envStack.envs, index - 2);
        r := AssignedValue(identifier.value, k);
      } else {
        Back();
        r := AssignmentAsTerm();
      }
    }

    /** `x++;`, `x+++;` or `x--;`, with the cursor on the operator after the name `id`. */
    method Incremented(id: string, k: TokenKind) returns (r: Res<Node>)
      requires Valid() && 1 <= index && tokens[index - 1].kind == Identifier && tokens[index - 1].value == id
      requires tokens[index].kind == k && (k == PlusPlus || k == TriplePlus || k == MinusMinus)
      modifies this
      ensures Valid()
      ensures Yields(r, Assignment(tokens, envStack.envs, old(index) - 1), old(errors))
    {
      AssignmentIncrement(tokens, envStack.envs, index - 1);
      Advance();
      var (op, n) := Increment(k);
      var _ := Expect(Semicolon);
      return Ok(VarAssignment(id, BinaryExpression(IdentifierNode(id), op, NumberNode(Int(n)))));
    }

    /** `x = e;` or `x op= e;`, with the cursor after the operator. */
    method AssignedValue(id: string, k: TokenKind) returns (r: Res<Node>)
      requires Valid() && 2 <= index && tokens[index - 2].kind == Identifier && tokens[index - 2].value == id
      requires tokens[index - 1].kind == k && (IsCompound(k) || k == Equal)
      modifies this
      ensures Valid()
      ensures Yields(r, Assigned(tokens, Expression(tokens, envStack.envs, old(index)), id, k), old(errors))
      decreases |tokens| - index, 17
    {
      var e := ParseExpression();
      if e.Fail? {
        return e;
      }
      var _ := Expect(Semicolon);
      r := Ok(VarAssignment(id, AssignedNode(id, k, e.value)));
    }

    /** An identifier with no assignment operator after it starts a term. */
    method AssignmentAsTerm() returns (r: Res<Node>)
      requires Valid() && tokens[index].kind == Identifier
      requires var k := TokenAt(tokens, index + 1).kind;
        !(k == PlusPlus || k == TriplePlus || k == MinusMinus || IsCompound(k) || k == Equal)
      modifies this
      ensures Valid()
      ensures Yields(r, Assignment(tokens, envStack.envs, old(index)), old(errors))
    {
      AssignmentTerm(tokens, envStack.envs, index);
      r := ParseTerm();
    }

    // ----- statements -----

    /** A method's result, state and end position agree with a statement-level production. */
    predicate Reaches<T(==)>(r: Res<T>, d: Done<T>)
      reads this, envStack, functionMemory
    {
      r == d.result && Snapshot(errors, envStack.envs, functionMemory.funcs) == d.after && (r.Ok? ==> index == d.next)
    }

    /** The type keywords and the name of a declaration or a parameter, as `TypedName` specifies them. */
    method TypedNameClause() returns (r: Res<TypedId>)
      requires OnToken()
      modifies this
      ensures OnToken() && old(index) <= index
      ensures Yields(r, TypedName(tokens, old(index)), old(errors))
    {
      ghost var j := index;
      var dt := FindVarType();
      r := NameAfterTypeClause(j, dt);
    }

    /**
     * The rest of `TypedNameClause` once `FindVarType` has consumed the
     * type keywords from `j` and found `dt`, as `NameAfterType` specifies it.
     */
    method NameAfterTypeClause(ghost j: nat, dt: Option<SyntaxToken>) returns (r: Res<TypedId>)
      requires OnToken() && j <= index
      requires dt.None? <==> index == j
      requires dt.Some? ==> dt.value == tokens[index - 1]
      modifies this
      ensures OnToken() && old(index) <= index
      ensures Yields(r, NameAfterType(tokens, j, old(index)), old(errors))
    {
      var identifier := Expect(Identifier);
      if dt.None? {
        return Fail(InvalidArgument(MissingType(identifier.value)));
      }
      return Ok(TypedId(dt.value.kind, identifier.value));
    }

    /** One formal parameter of `Parameters`, as `Parameter` specifies it. */
    method ParameterClause() returns (r: Res<Variable>)
      requires OnToken()
      modifies this
      ensures OnToken() && old(index) <= index
      ensures Yields(r, Parameter(tokens, old(index)), old(errors))
    {
      var d := TypedNameClause();
      if d.Fail? {
        return Fail(d.abrupt);
      }
      return Ok(Variable(FromToken(d.value.kw), d.value.id, Empty));
    }

    /** `Parameters`: one parameter, then one more after each `,`, as `FormalParameters` specifies it. */
    method Parameters() returns (r: Res<seq<Variable>>)
      requires OnToken()
      modifies this
      ensures OnToken()
      ensures var p := FormalParameters(tokens, old(index), old(errors));
        r == p.result && errors == p.reports && (r.Ok? ==> index == p.next)
    {
      ghost var j := index;
      ghost var done := errors;
      var first := ParameterClause();
      ParameterListStep(tokens, j, [], done, j, first, index, errors);
      if first.Fail? {
        return Fail(first.abrupt);
      }
      assert [] + [first.value] == [first.value];
      r := MoreParameters([first.value]);
    }

    /** The loop of `Parameters`: one more parameter after each `,`, as `ParameterList` specifies it. */
    method MoreParameters(ps: seq<Variable>) returns (r: Res<seq<Variable>>)
      requires OnToken() && ps != []
      modifies this
      ensures OnToken()
      ensures var p := ParameterList(tokens, old(index), ps, old(errors));
        r == p.result && errors == p.reports && (r.Ok? ==> index == p.next)
    {
      ghost var whole := ParameterList(tokens, index, ps, errors);
      var params := ps;
      while Match(Comma)
        invariant OnToken() && params != []
        invariant ParameterList(tokens, index, params, errors) == whole
        decreases |tokens| - index
      {
        var next := NextParameter(params);
        if next.Fail? {
          return Fail(next.abrupt);
        }
        params := params + [next.value];
      }
      return Ok(params);
    }

    /** One round of the loop of `Parameters`: the `,` and the parameter after it. */
    method NextParameter(ghost ps: seq<Variable>) returns (r: Res<Variable>)
      requires OnToken() && tokens[index].kind == Comma && ps != []
      modifies this
      ensures OnToken() && old(index) < index
      ensures var a := ParameterList(tokens, old(index), ps, old(errors));
        && (r.Fail? ==> a.result == Fail(r.abrupt) && a.reports == errors)
        && (r.Ok? ==> a == ParameterList(tokens, index, ps + [r.value], errors))
    {
      ghost var j := index;
      ghost var done := errors;
      Advance();
      ghost var at := index;
      r := ParameterClause();
      ParameterListStep(tokens, j, ps, done, at, r, index, errors);
    }

    /** The signature part of `FunctionDeclarationStatement`, as `FunctionHeader` specifies it. */
    method FunctionHeaderClause() returns (r: Res<Header>)
      requires OnToken()
      modifies this
      ensures OnToken()
      ensures var h := FunctionHeader(tokens, old(index), old(errors));
        r == h.result && errors == h.reports && (r.Ok? ==> index == h.next)
    {
      var d := TypedNameClause();
      if d.Fail? {
        return Fail(d.abrupt);
      }
      var params := SignatureClause();
      if params.Fail? {
        return Fail(params.abrupt);
      }
      return Ok(Header(FromToken(d.value.kw), d.value.id, params.value));
    }

    /** The parenthesised parameters of a function declaration, as `Signature` specifies them. */
    method SignatureClause() returns (r: Res<seq<Variable>>)
      requires OnToken()
      modifies this
      ensures OnToken()
      ensures var p := Signature(tokens, old(index), old(errors));
        r == p.result && errors == p.reports && (r.Ok? ==> index == p.next)
    {
      ghost var o := ExpectAt(tokens, index, OpenParen);
      var _ := Expect(OpenParen);
      assert index == o.0 && errors == old(errors) + o.1;
      ghost var ps := OptionalParameters(tokens, index, errors);
      var params := MaybeParameters();
      assert params == ps.result && errors == ps.reports;
      if params.Fail? {
        return params;
      }
      var _ := Expect(CloseParen);
      return params;
    }

    /** The parameters unless `)` comes at once, as `OptionalParameters` specifies them. */
    method MaybeParameters() returns (r: Res<seq<Variable>>)
      requires OnToken()
      modifies this
      ensures OnToken()
      ensures var p := OptionalParameters(tokens, old(index), old(errors));
        r == p.result && errors == p.reports && (r.Ok? ==> index == p.next)
    {
      r := Ok([]);
      if !Match(CloseParen) {
        r := Parameters();
      }
    }

    /** `ParsePrintStatement`, as `Print` specifies it. */
    method ParsePrintStatement() returns (r: Res<Node>)
      requires Valid() && tokens[index].kind == PrintKw
      modifies this
      ensures Valid()
      ensures Reaches(r, Print(tokens, old(index), Snapshot(old(errors), old(envStack.envs), old(functionMemory.funcs))))
      decreases |tokens| - index, 18
    {
      Advance();
      var expression := ParseExpression();
      if expression.Fail? {
        return expression;
      }
      if expression.value != Null {
        var _ := Expect(Semicolon);
      }
      return Ok(PrintStmt(expression.value));
    }

    /**
     * `VarDeclarationStatement`, as `VariableDeclaration` specifies it: the
     * variable is added to the scope stack before its initializer is parsed.
     */
    method VarDeclarationStatement() returns (r: Res<Node>)
      requires Valid()
      modifies this, envStack
      ensures Valid()
      ensures Reaches(r, VariableDeclaration(tokens, old(index), Snapshot(old(errors), old(envStack.envs), old(functionMemory.funcs))))
      decreases |tokens| - index, 18
    {
      var d := TypedNameClause();
      if d.Fail? {
        return Fail(d.abrupt);
      }
      r := DeclaredVariable(d.value);
    }

    /** The variable `t` goes onto the scope stack, then its initializer, as `Declared` specifies it. */
    method DeclaredVariable(t: TypedId) returns (r: Res<Node>)
      requires Valid()
      modifies this, envStack
      ensures Valid()
      ensures Reaches(r, Declared(tokens, old(index), Snapshot(old(errors), old(envStack.envs), old(functionMemory.funcs)), t))
      decreases |tokens| - index, 18
    {
      var v := Variable(FromToken(t.kw), t.id, Empty);
      ghost var declared := AddVariable(envStack.envs, v);
      var added := envStack.Add(v);
      if added.Fail? {
        assert declared.Fail?;
        return Fail(added.abrupt);
      }
      assert envStack.envs == declared.value;
      r := VarInitializer(t.kw, t.id);
    }

    /** The optional `= expression` and the `;` of a declaration of `id` with type keyword `kw`. */
    method VarInitializer(kw: TokenKind, id: string) returns (r: Res<Node>)
      requires Valid()
      modifies this
      ensures Valid()
      ensures Reaches(r, Initializer(tokens, old(index), Snapshot(old(errors), old(envStack.envs), old(functionMemory.funcs)), kw, id))
      decreases |tokens| - index, 17
    {
      var equal := ExpectOptional(Equal);
      if equal.Some? {
        r := InitialValue(kw, id);
        return;
      }
      var _ := Expect(Semicolon);
      return Ok(VarDeclaration(kw, id, Null));
    }

    /** The initializer after `=`, then `;`, as `Initialized` specifies them. */
    method InitialValue(kw: TokenKind, id: string) returns (r: Res<Node>)
      requires Valid()
      modifies this
      ensures Valid()
      ensures Reaches(r, Initialized(tokens, old(index), Snapshot(old(errors), old(envStack.envs), old(functionMemory.funcs)), kw, id))
      decreases |tokens| - index, 17
    {
      var x := ParseExpression();
      if x.Fail? {
        return x;
      }
      var _ := Expect(Semicolon);
      return Ok(VarDeclaration(kw, id, x.value));
    }

    /**
     * `FunctionDeclarationStatement`, as `FunctionDeclaration` specifies
     * it: the body block is seeded with the parameters, and the function
     * then goes into the function table.
     */
    method FunctionDeclarationStatement() returns (r: Res<Node>)
      requires Valid()
      modifies this, envStack, functionMemory
      ensures Valid()
      ensures Reaches(r, FunctionDeclaration(tokens, old(index), Snapshot(old(errors), old(envStack.envs), old(functionMemory.funcs))))
      decreases |tokens| - index, 18
    {
      var header := FunctionHeaderClause();
      if header.Fail? {
        return Fail(header.abrupt);
      }
      r := FunctionBodyClause(header.value);
    }

    /** The body of the function `header` and its entry in the table, as `FunctionBody` specifies them. */
    method FunctionBodyClause(header: Header) returns (r: Res<Node>)
      requires Valid()
      modifies this, envStack, functionMemory
      ensures Valid()
      ensures Reaches(r, FunctionBody(tokens, old(index), Snapshot(old(errors), old(envStack.envs), old(functionMemory.funcs)), header))
      decreases |tokens| - index, 23
    {
      var body := ParseBlockStatement(header.params);
      if body.Fail? {
        return body;
      }
      var added := functionMemory.Add(FuncVariable(header.returnType, header.id, body.value, header.params));
      if added.Fail? {
        return Fail(added.abrupt);
      }
      return Ok(Null);
    }

    /** `ParseIfStatement`, as `If` specifies it. */
    method ParseIfStatement() returns (r: Res<Node>)
      requires Valid() && tokens[index].kind == IfKw
      modifies this, envStack, functionMemory
      ensures Valid()
      ensures Reaches(r, If(tokens, old(index), Snapshot(old(errors), old(envStack.envs), old(functionMemory.funcs))))
      decreases |tokens| - index, 18
    {
      ghost var o := ExpectAt(tokens, index + 1, OpenParen);
      var _ := Expect(IfKw);
      var _ := Expect(OpenParen);
      assert index == o.0 && errors == old(errors) + o.1;
      var expression := ParseExpression();
      if expression.Fail? {
        return expression;
      }
      r := IfThenClause(expression.value);
    }

    /** `)` and the block after the condition of an `if`, as `IfThen` specifies them. */
    method IfThenClause(condition: Node) returns (r: Res<Node>)
      requires Valid()
      modifies this, envStack, functionMemory
      ensures Valid()
      ensures Reaches(r, IfThen(tokens, old(index), Snapshot(old(errors), old(envStack.envs), old(functionMemory.funcs)), condition))
      decreases |tokens| - index, 23
    {
      ghost var c := ExpectAt(tokens, index, CloseParen);
      ghost var s := Reported(Snapshot(errors, envStack.envs, functionMemory.funcs), c.1);
      var _ := Expect(CloseParen);
      assert Snapshot(errors, envStack.envs, functionMemory.funcs) == s && index == c.0;
      var block := ParseBlockStatement([]);
      if block.Fail? {
        return block;
      }
      return Ok(IfStmt(condition, block.value));
    }

    /** `DeclarationStatement`, as `Declaration` specifies it. */
    method DeclarationStatement() returns (r: Res<Node>)
      requires Valid() && tokens[index].kind.IsTypeKeyword()
      modifies this, envStack, functionMemory
      ensures Valid()
      ensures Reaches(r, Declaration(tokens, old(index), Snapshot(old(errors), old(envStack.envs), old(functionMemory.funcs))))
      decreases |tokens| - index, 19
    {
      if PeekNext().kind == Identifier {
        if PeekNextNext().kind == OpenParen {
          r := FunctionDeclarationStatement();
          return;
        }
        r := VarDeclarationStatement();
        return;
      }
      return Ok(Null);
    }

    /** `ParseStatement`, as `Statement` specifies it. */
    method ParseStatement() returns (r: Res<Node>)
      requires Valid()
      modifies this, envStack, functionMemory
      ensures Valid()
      ensures Reaches(r, Statement(tokens, old(index), Snapshot(old(errors), old(envStack.envs), old(functionMemory.funcs))))
      decreases |tokens| - index, 20
    {
      if Match(PrintKw) {
        r := ParsePrintStatement();
        return;
      }
      var typed := MatchAny([BoolType, ShortType, IntType, LongType, FloatType, DoubleType]);
      if typed {
        r := DeclarationStatement();
        return;
      }
      if Match(IfKw) {
        r := ParseIfStatement();
        return;
      }
      if Match(OpenCurly) {
        r := ParseBlockStatement([]);
        return;
      }
      r := ParseExpression();
    }

    /**
     * `ParseBlockStatement(params)`, as `Block` specifies it: `{`, a new
     * scope holding the parameters is pushed, then the statements and `}`.
     */
    method ParseBlockStatement(params: seq<Variable>) returns (r: Res<Node>)
      requires Valid()
      modifies this, envStack, functionMemory
      ensures Valid()
      ensures Reaches(r, Block(tokens, old(index), Snapshot(old(errors), old(envStack.envs), old(functionMemory.funcs)), params))
      decreases |tokens| - index, if tokens[index].kind == OpenCurly then 0 else 22
    {
      ghost var s := Snapshot(errors, envStack.envs, functionMemory.funcs);
      ghost var o := ExpectAt(tokens, index, OpenCurly);
      ghost var b := Block(tokens, index, s, params);
      var _ := Expect(OpenCurly);
      var scope := BlockScope(params);
      if scope.Fail? {
        assert b == Done(Fail(scope.abrupt), o.0, Reported(s, o.1));
        return Fail(scope.abrupt);
      }
      envStack.Push(scope.value);
      assert Snapshot(errors, envStack.envs, functionMemory.funcs) == Reported(s, o.1).(envs := s.envs + [scope.value]);
      assert b == BlockBody(tokens, index, Snapshot(errors, envStack.envs, functionMemory.funcs), []);
      r := BlockStatements();
    }

    /** The statement loop of `ParseBlockStatement` and its closing `}`, as `BlockBody` specifies them. */
    method BlockStatements() returns (r: Res<Node>)
      requires Valid()
      modifies this, envStack, functionMemory
      ensures Valid()
      ensures Reaches(r, BlockBody(tokens, old(index), Snapshot(old(errors), old(envStack.envs), old(functionMemory.funcs)), []))
      decreases |tokens| - index, 21
    {
      ghost var whole := BlockBody(tokens, index, Snapshot(errors, envStack.envs, functionMemory.funcs), []);
      var stmts: seq<Node> := [];
      while !Match(CloseCurly)
        invariant Valid() && old(index) <= index
        invariant BlockBody(tokens, index, Snapshot(errors, envStack.envs, functionMemory.funcs), stmts) == whole
        decreases |tokens| - index
      {
        var stmt := ParseStatement();
        if stmt.Fail? {
          return stmt;
        }
        if stmt.value == Null {
          break;
        }
        stmts := stmts + [stmt.value];
      }
      var _ := Expect(CloseCurly);
      return Ok(BlockStmt(stmts));
    }

    /**
     * `Parse`, as `ParseFrom` specifies it: statements up to the end, the
     * first report or the first empty statement; a thrown
     * `std::invalid_argument` is reported and ends the loop.
     */
    method Parse() returns (r: Res<seq<Node>>)
      requires Valid()
      modifies this, envStack, functionMemory
      ensures Valid()
      ensures var d := ParseFrom(tokens, old(index), Snapshot(old(errors), old(envStack.envs), old(functionMemory.funcs)), []);
        r == d.result && Snapshot(errors, envStack.envs, functionMemory.funcs) == d.after
    {
      ghost var whole := ParseFrom(tokens, index, Snapshot(errors, envStack.envs, functionMemory.funcs), []);
      var statements: seq<Node> := [];
      while !IsAtEnd() && errors == []
        invariant Valid()
        invariant var d := ParseFrom(tokens, index, Snapshot(errors, envStack.envs, functionMemory.funcs), statements);
          d.result == whole.result && d.after == whole.after
        decreases if errors == [] then 1 else 0, |tokens| - index
      {
        var statement := ParseStatement();
        if statement.Fail? {
          if !statement.abrupt.Catchable() {
            return Fail(statement.abrupt);
          }
          Report(statement.abrupt.msg);
        } else {
          if statement.value == Null {
            break;
          }
          statements := statements + [statement.value];
        }
      }
      return Ok(statements);
    }
  }

  /**
   * The parser's constructor as the program calls it: the parser takes the
   * scope stack by value, so it works on a stack of its own holding the
   * same scopes; it shares the function table, and holds the lexer's tokens
   * for the whole program.  A lexer that would run forever yields its
   * failure here.
   */
  method NewParser(program: string, envStack: EnvStack, functionMemory: FunctionMemory) returns (r: Res<Parser>)
    requires envStack.Valid() && envStack.current == envStack.lastIndex
    ensures r.Ok? <==> Tokenize(program).Ok?
    ensures r.Fail? ==> r.abrupt == Tokenize(program).abrupt
    ensures r.Ok? ==> fresh(r.value) && r.value.Valid() && r.value.tokens == Tokenize(program).value
    ensures r.Ok? ==> r.value.index == 0 && r.value.errors == []
    ensures r.Ok? ==> fresh(r.value.envStack) && r.value.envStack.envs == envStack.envs
    ensures r.Ok? ==> r.value.functionMemory == functionMemory
  {
    var lexer := new Lexer(program);
    var tokens := lexer.LexAll();
    if tokens.Fail? {
      return Fail(tokens.abrupt);
    }
    LexerProperties.TokenizeWellFormed(program);
    var own := new EnvStack();
    own.envs := envStack.envs;
    own.lastIndex := envStack.lastIndex;
    own.Reset();
    var parser := new Parser(tokens.value, own, functionMemory);
    return Ok(parser);
  }
}
