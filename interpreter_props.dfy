/**
 * Properties of the interpreter specification `Interpreting.Eval` and its
 * pure parts: what unary and binary operators give back, when an if runs
 * its block, what a print writes, what declarations and assignments do to
 * the scopes, and why a function body runs at most once.
 */
module InterpreterProps {
  import opened Outcomes
  import opened Tokens
  import opened Values
  import opened Ast
  import opened Variables
  import opened Environments
  import opened EnvStacks
  import opened FunctionMemories
  import opened Interpreting
  import Semantics

  /**
   * Applying a unary operator twice gives the operand back: `!!b` is `b`,
   * and `--x` is `x` for every well-formed integer, wrap-around included
   * (a `short` comes back as an `int`).
   */
  lemma UnaryTwiceRestores(token: TokenKind, v: Any)
    requires (v.Num? && v.n.IsIntegral() && WellFormed(v.n)) || (v.Bool? && token == Bang)
    ensures Unary(token, v).Ok?
    ensures Unary(token, Unary(token, v).value) == Ok(if v.Num? && v.n.Short? then Num(Int(v.n.v)) else v)
  {
    if v.Num? {
      NegateTwice(v.n);
    }
  }

  /**
   * On a number the operator token is not looked at: `+x` negates just as
   * `-x` does, so `+5` is `-5`.
   */
  lemma UnaryIgnoresToken(token: TokenKind, x: Number)
    ensures Unary(token, Num(x)) == Unary(Minus, Num(x))
    ensures Unary(Plus, Num(Int(5))) == Ok(Num(Int(-5)))
  {
  }

  /** `+`, `*`, `==` and `!=` on two integers do not depend on the order of the operands. */
  lemma NumberBinaryCommutes(op: TokenKind, a: Number, b: Number)
    requires op in {Plus, Star, EqualEqual, BangEqual}
    requires a.IsIntegral() && b.IsIntegral()
    ensures NumberBinary(op, a, b) == NumberBinary(op, b, a)
  {
    if op in {Plus, Star} {
      ArithCommutes(op, a, b);
      MixedWidthsCombine(op, a, b);
      MixedWidthsCombine(op, b, a);
    }
  }

  /** On two integers, `+`, `*`, `==` and `!=` give the same value in either order. */
  lemma NumbersCommute(op: TokenKind, a: Number, b: Number)
    requires op in {Plus, Star, EqualEqual, BangEqual}
    requires a.IsIntegral() && b.IsIntegral()
    ensures Binary(op, Num(a), Num(b)).Ok?
    ensures Binary(op, Num(a), Num(b)) == Binary(op, Num(b), Num(a))
  {
    assert Binary(op, Num(a), Num(b)) == NumberBinary(op, a, b);
    assert Binary(op, Num(b), Num(a)) == NumberBinary(op, b, a);
    NumberBinaryCommutes(op, a, b);
  }

  /**
   * `+`, `*`, `==`, `!=`, `&&` and `||` do not depend on the order of their
   * operands when those are integers or bools: either both orders give the
   * same value or both fail.
   */
  lemma BinaryCommutes(op: TokenKind, l: Any, r: Any)
    requires op in {Plus, Star, EqualEqual, BangEqual, AmpersandAmpersand, PipePipe}
    requires l.Num? ==> l.n.IsIntegral()
    requires r.Num? ==> r.n.IsIntegral()
    ensures Binary(op, l, r).Ok? <==> Binary(op, r, l).Ok?
    ensures Binary(op, l, r).Ok? ==> Binary(op, l, r) == Binary(op, r, l)
  {
    if l.Num? && r.Num? && op in {Plus, Star, EqualEqual, BangEqual} {
      NumbersCommute(op, l.n, r.n);
    } else if !(l.Bool? && r.Bool?) {
      BothOrdersFail(op, l, r);
    }
  }

  /** Operands that are not two numbers under an arithmetic operator, nor two bools, fail in either order. */
  lemma BothOrdersFail(op: TokenKind, l: Any, r: Any)
    requires op in {Plus, Star, EqualEqual, BangEqual, AmpersandAmpersand, PipePipe}
    requires !(l.Num? && r.Num? && op in {Plus, Star, EqualEqual, BangEqual}) && !(l.Bool? && r.Bool?)
    ensures Binary(op, l, r).Fail? && Binary(op, r, l).Fail?
  {
  }

  /**
   * An if on `a == b` (or `a != b`) over two integers runs its block
   * exactly when the values are equal (or differ): the comparison gives the
   * number 1 or 0 and the condition tests for 1.
   */
  lemma ComparisonDecidesCondition(op: TokenKind, a: Number, b: Number)
    requires op in {EqualEqual, BangEqual}
    requires a.IsIntegral() && b.IsIntegral()
    ensures Binary(op, Num(a), Num(b)).Ok?
    ensures Condition(Binary(op, Num(a), Num(b)).value) == Ok(if op == EqualEqual then a.v == b.v else a.v != b.v)
  {
    assert Binary(op, Num(a), Num(b)) == NumberBinary(op, a, b);
  }

  /**
   * What a print writes for a non-negative `int` is read back by `stoi`,
   * the conversion the parser applies to a number token's text.
   */
  lemma PrintedIntegerReadsBack(x: Number)
    requires x.IsIntegral() && 0 <= x.v < HalfRange(KInt)
    ensures PrintText(Num(x)) == Ok(Text(IntToDecimal(x.v)))
    ensures StoInt(PrintText(Num(x)).value.text) == Ok(x.v)
  {
    StoIntReadsPrinted(x.v);
  }

  /**
   * What a print writes for a negative `int` is a minus sign followed by
   * the digits of its magnitude, which `stoi` reads back.
   */
  lemma PrintedNegativeIntegerReadsBack(x: Number)
    requires x.IsIntegral() && -HalfRange(KInt) < x.v < 0
    ensures PrintText(Num(x)) == Ok(Text("-" + IntToDecimal(-x.v)))
    ensures StoInt(IntToDecimal(-x.v)) == Ok(-x.v)
  {
    StoIntReadsPrinted(-x.v);
  }

  /**
   * Looking a name up gives the value bound to it in the innermost scope at
   * or below the cursor that has it.
   */
  lemma FetchFindsInnermost(id: string, st: RunState, k: nat)
    requires st.Valid() && k <= st.current && id in st.envs[k]
    requires forall j :: k < j <= st.current ==> id !in st.envs[j]
    ensures Fetch(id, st) == Evaluated(Ok(st.envs[k][id].value), st.(current := |st.envs| - 1))
  {
    InnermostFindsAny(st.envs, st.current, id);
  }

  /** A declaration without an initializer stores `nullptr` under the declared type. */
  lemma DeclarationWithoutInitializerStoresNull(t: TokenKind, id: string, st: RunState)
    requires st.Valid() && 0 <= st.current && id !in st.envs[st.current]
    ensures var e := Eval(VarDeclaration(t, id, Null), st);
      e.result == Ok(Empty) && id in e.after.envs[st.current] &&
      e.after.envs[st.current][id] == Variable(FromToken(t), id, NullPtr)
  {
    assert Eval(VarDeclaration(t, id, Null), st) == Added(t, id, NullPtr, st);
  }

  /**
   * An assignment changes no scope: the stack after it is the one its
   * expression left, and it fails exactly when the expression fails or the
   * name is bound in no scope at or below the cursor.
   */
  lemma AssignmentDoesNotUpdate(id: string, x: Node, st: RunState)
    requires st.Valid()
    ensures var o := Eval(x, st);
      var e := Eval(VarAssignment(id, x), st);
      e.after.envs == o.after.envs && e.after.output == o.after.output &&
      (e.result.Ok? <==> o.result.Ok? && exists j :: 0 <= j <= o.after.current && id in o.after.envs[j])
  {
    var o := Eval(x, st);
    if o.result.Ok? {
      assert Eval(VarAssignment(id, x), st) == Assigned(id, o.after);
    }
  }

  /**
   * `x++` and `x op= n` never change `x`: once desugared into an
   * assignment of `x + n`, the sum is computed and dropped, and the scopes
   * stay as they were.
   */
  lemma IncrementLeavesVariable(id: string, op: TokenKind, n: Number, st: RunState, k: nat)
    requires st.Valid() && op in {Plus, Minus, Star}
    requires k <= st.current && id in st.envs[k] && st.envs[k][id].value.Num?
    requires forall j :: k < j <= st.current ==> id !in st.envs[j]
    ensures var e := Eval(VarAssignment(id, BinaryExpression(IdentifierNode(id), op, NumberNode(n))), st);
      e.result == Ok(Empty) && e.after.envs == st.envs && e.after.output == st.output
  {
    var sum := BinaryExpression(IdentifierNode(id), op, NumberNode(n));
    var l := Fetch(id, st);
    FetchFindsInnermost(id, st, k);
    assert Eval(IdentifierNode(id), st) == l && l.result.Ok?;
    assert Eval(NumberNode(n), l.after) == Evaluated(Ok(Num(n)), l.after);
    MixedWidthsCombine(op, l.result.value.n, n);
    assert Eval(sum, st) == Evaluated(Binary(op, l.result.value, Num(n)), l.after);
    AssignmentDoesNotUpdate(id, sum, st);
  }

  /**
   * Calling a name the table does not hold throws, leaving the state alone;
   * calling one whose body was moved out by an earlier call never runs a
   * body: with arguments the arity check fails, without them the empty
   * body pointer is dereferenced.
   */
  lemma SecondCallNeverRuns(call: Node, st: RunState, f: FuncVariable)
    requires st.Valid() && call.FunctionCall?
    requires call.identifier in st.funcs && st.funcs[call.identifier] == MovedFrom(f)
    ensures var e := Call(call, st);
      (|call.arguments| > 0 ==> e.result == Fail(InvalidArgument(WrongArity(""))) && e.after.envs == st.envs) &&
      (|call.arguments| == 0 ==> e.result == Fail(NullDereference) && e.after.envs == st.envs)
  {
    var m := st.funcs[call.identifier];
    MoveOutShrinksPending(st.funcs, call.identifier);
    var moved := st.(funcs := st.funcs[call.identifier := MovedFrom(m)]);
    SubsetNoLarger(Pending(moved.funcs), Pending(st.funcs) - {call.identifier});
    assert Call(call, st) == CallOf(|Pending(st.funcs)|, call, m, moved);
    if |call.arguments| == 0 {
      assert Bind(call, m, 0, [], moved) == Bound(Ok([]), moved);
    }
  }

  /** An argument whose value is known without evaluating anything. */
  predicate Literal(n: Node) {
    n.NumberNode? || n.BoolNode?
  }

  function LiteralValue(n: Node): Any
    requires Literal(n)
  {
    if n.NumberNode? then Num(n.number) else Bool(n.b)
  }

  /** The parameters with each one's value replaced by that of the argument at its position. */
  function LiteralBinding(params: seq<Variable>, args: seq<Node>): (b: seq<Variable>)
    requires |params| == |args| && forall k :: 0 <= k < |args| ==> Literal(args[k])
    ensures |b| == |params|
  {
    seq(|params|, k requires 0 <= k < |params| => params[k].(value := LiteralValue(args[k])))
  }

  /**
   * Binding literal arguments changes no state and gives parameter `k` the
   * value of argument `k`, with its own type and name.
   */
  lemma {:induction false} BindPositional(call: Node, f: FuncVariable, i: nat, params: seq<Variable>, st: RunState)
    requires st.Valid() && call.FunctionCall? && i <= |call.arguments| == |params|
    requires forall k :: i <= k < |params| ==> Literal(call.arguments[k])
    ensures var b := Bind(call, f, i, params, st);
      b.after == st && b.result.Ok? && |b.result.value| == |params| &&
      (forall k :: 0 <= k < i ==> b.result.value[k] == params[k]) &&
      (forall k :: i <= k < |params| ==> b.result.value[k] == params[k].(value := LiteralValue(call.arguments[k])))
    decreases |params| - i
  {
    if i < |params| {
      var a := call.arguments[i];
      assert Eval(a, st) == Evaluated(Ok(LiteralValue(a)), st);
      BindPositional(call, f, i + 1, params[i := params[i].(value := LiteralValue(a))], st);
    }
  }

  /**
   * A string argument after literal ones stops the binding with the
   * `std::invalid_argument` naming the function and the string type.
   */
  lemma {:induction false} BindRejectsString(call: Node, f: FuncVariable, i: nat, j: nat, params: seq<Variable>, st: RunState)
    requires st.Valid() && call.FunctionCall? && i <= j < |call.arguments| == |params|
    requires forall k :: i <= k < j ==> Literal(call.arguments[k])
    requires call.arguments[j].StringNode?
    ensures Bind(call, f, i, params, st) == Bound(Fail(InvalidArgument(InvalidParameter(f.identifier, "std::string"))), st)
    decreases j - i
  {
    var a := call.arguments[i];
    if i < j {
      assert Eval(a, st) == Evaluated(Ok(LiteralValue(a)), st);
      BindRejectsString(call, f, i + 1, j, params[i := params[i].(value := LiteralValue(a))], st);
    } else {
      assert Eval(a, st) == Evaluated(Ok(Str(a.text)), st);
    }
  }

  /**
   * A call whose argument count differs from the stored definition's
   * parameter count throws before any argument is evaluated; the
   * definition has been moved out of the table all the same.
   */
  lemma CallArityMismatch(call: Node, st: RunState)
    requires st.Valid() && call.FunctionCall? && call.identifier in st.funcs
    requires |st.funcs[call.identifier].parameters| != |call.arguments|
    ensures var f := st.funcs[call.identifier];
      Call(call, st) == Evaluated(Fail(InvalidArgument(WrongArity(f.identifier))), st.(funcs := st.funcs[call.identifier := MovedFrom(f)]))
  {
  }

  /**
   * The first call of a stored function with a string argument after
   * literal ones throws the invalid-parameter error; only the move-out of
   * the definition has happened.
   */
  lemma FirstCallRejectsString(call: Node, st: RunState, j: nat)
    requires st.Valid() && call.FunctionCall? && call.identifier in st.funcs
    requires |st.funcs[call.identifier].parameters| == |call.arguments|
    requires j < |call.arguments| && call.arguments[j].StringNode?
    requires forall k :: 0 <= k < j ==> Literal(call.arguments[k])
    ensures var f := st.funcs[call.identifier];
      Call(call, st) == Evaluated(Fail(InvalidArgument(InvalidParameter(f.identifier, "std::string"))), st.(funcs := st.funcs[call.identifier := MovedFrom(f)]))
  {
    var f := st.funcs[call.identifier];
    var moved := st.(funcs := st.funcs[call.identifier := MovedFrom(f)]);
    BindRejectsString(call, f, 0, j, f.parameters, moved);
  }

  /**
   * The first call of a stored function with literal arguments of the right
   * number runs its body with the parameter buffer holding each parameter
   * bound to the argument at its position.
   */
  lemma FirstCallBindsLiterals(call: Node, st: RunState)
    requires st.Valid() && call.FunctionCall? && call.identifier in st.funcs
    requires st.funcs[call.identifier].blockStmt != Null
    requires |st.funcs[call.identifier].parameters| == |call.arguments|
    requires forall k :: 0 <= k < |call.arguments| ==> Literal(call.arguments[k])
    ensures var f := st.funcs[call.identifier];
      var moved := st.(funcs := st.funcs[call.identifier := MovedFrom(f)]);
      var run := Eval(f.blockStmt, moved.(buffer := LiteralBinding(f.parameters, call.arguments)));
      Call(call, st) == if run.result.Fail? then run else Evaluated(Ok(Empty), Popped(run.after))
  {
    var f := st.funcs[call.identifier];
    var moved := st.(funcs := st.funcs[call.identifier := MovedFrom(f)]);
    BindPositional(call, f, 0, f.parameters, moved);
    assert Bind(call, f, 0, f.parameters, moved).result.value == LiteralBinding(f.parameters, call.arguments);
    MoveOutShrinksPending(st.funcs, call.identifier);
    SubsetNoLarger(Pending(moved.funcs), Pending(st.funcs) - {call.identifier});
    var bound := |Pending(st.funcs)|;
    assert Call(call, st) == CallOf(bound, call, f, moved);
    assert CallOf(bound, call, f, moved) ==
      Invoke(bound, call, f.blockStmt, moved.(buffer := LiteralBinding(f.parameters, call.arguments)));
  }

  /** A name missing from the function table is reported, and nothing changes. */
  lemma UnknownFunctionFails(call: Node, st: RunState)
    requires st.Valid() && call.FunctionCall? && call.identifier !in st.funcs
    ensures Call(call, st) == Evaluated(Fail(InvalidArgument(NotDeclared(call.identifier))), st)
  {
  }

  /**
   * A block pushes the scope seeded with the parameter buffer, empties the
   * buffer and never pops that scope: an empty block leaves it on the stack.
   */
  lemma EmptyBlockKeepsItsScope(st: RunState)
    requires st.Valid() && Seed(st.buffer).Ok?
    ensures Eval(BlockStmt([]), st) ==
      Evaluated(Ok(Empty), st.(envs := st.envs + [Seed(st.buffer).value], current := |st.envs|, buffer := []))
  {
    var scope := Seed(st.buffer).value;
    var pushed := st.(envs := st.envs + [scope], current := |st.envs|, buffer := []);
    assert RunBlock(BlockStmt([]), 0, pushed) == Evaluated(Ok(Empty), pushed);
  }

  /**
   * The checker and the interpreter agree on names: over the same scopes
   * and cursor, the checker reports an identifier exactly when evaluating
   * it throws, with the same message, and otherwise both give the value
   * bound to it.
   */
  lemma CheckerAndInterpreterAgreeOnNames(id: string, errors: seq<string>, st: RunState)
    requires st.Valid()
    ensures var c := Semantics.CheckNode(IdentifierNode(id), Semantics.SemState(errors, st.envs, st.current));
      var e := Eval(IdentifierNode(id), st);
      (c.after.errors == errors + [VariableNotFound(id)] <==> e.result.Fail?) &&
      (e.result.Fail? ==> e.result == Fail(InvalidArgument(VariableNotFound(id)))) &&
      (e.result.Ok? ==> c.result == e.result && c.after.envs == e.after.envs && c.after.current == e.after.current)
  {
    var s := Semantics.SemState(errors, st.envs, st.current);
    assert Semantics.CheckNode(IdentifierNode(id), s) ==
      var f := Semantics.Resolve(id, s);
      Semantics.Checked(Ok(if f.variable.Some? then f.variable.value.value else Empty), f.after);
    assert Eval(IdentifierNode(id), st) == Fetch(id, st);
  }
}
