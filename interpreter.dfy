/**
 * interpret.cpp: the tree-walking evaluator.  A visit returns a `std::any`
 * holding a `NUMBER_DT`, a `bool`, a string, `nullptr` or nothing.  The
 * interpreter keeps its own scope stack, shares the parser's function
 * table, hands call arguments to the callee's body block through a
 * parameter buffer, writes to the console and collects runtime errors.
 *
 * `Eval` is the specification of one visit over an explicit `RunState`;
 * the `Interpreter` class is proved against it.  Every
 * `std::invalid_argument` a visit throws travels up to `Interpret`, which
 * reports it; the other exits end the process.
 */
module Interpreting {
  import opened Outcomes
  import opened Tokens
  import opened Values
  import opened Ast
  import opened Variables
  import opened Environments
  import opened EnvStacks
  import opened FunctionMemories

  /**
   * One write to `std::cout`.  Integers, strings and the fixed words are
   * text; a `float`/`double` is kept as the term that produced it, since
   * the model does not round or format floating point.
   */
  datatype Printed = Text(text: string) | FloatText(kind: NumKind, term: FloatTerm)

  /** The interpreter's scope stack, function table, parameter buffer and console output. */
  datatype RunState = RunState(envs: seq<Scope>, current: int, funcs: map<string, FuncVariable>, buffer: seq<Variable>, output: seq<Printed>)
  {
    /** The cursor is on a scope or just below the bottom, as `EnvStack::Valid` requires. */
    predicate Valid() {
      -1 <= current < |envs|
    }
  }

  /** What a visit returns (or the exit that ends it) and the state after it, also after an exit. */
  datatype Evaluated = Evaluated(result: Res<Any>, after: RunState)

  /** The parameters of a call with the argument values bound so far. */
  datatype Bound = Bound(result: Res<seq<Variable>>, after: RunState)

  // ---------------------------------------------------------------------
  // Messages.  The C++ text embeds `type().name()`, whose spelling belongs
  // to the compiler; `TypeName` stands for it.

  function WidthName(n: Number): string {
    match n
    case Short(_) => "short"
    case Int(_) => "int"
    case Long(_) => "long"
    case Float(_) => "float"
    case Double(_) => "double"
  }

  function TypeName(v: Any): string {
    match v
    case Empty => "void"
    case Num(_) => "NUMBER_DT"
    case Raw(x) => WidthName(x)
    case Bool(_) => "bool"
    case Str(_) => "std::string"
    case NullPtr => "std::nullptr_t"
    case TypeTag(_) => "DataType"
  }

  const ExpectedBang: string := "Runtime Error: Expected BANG TOKEN."

  function InvalidUnary(found: string): string {
    "Runtime Error: Invalid unary value type (found type '" + found + "')"
  }

  function NotABool(found: string): string {
    "Runtime Error: If expressions must return a bool (found type '" + found + "')"
  }

  function InvalidPrint(found: string): string {
    "Runtime Error: Invalid expression (found: " + found + ") in print statement."
  }

  function CannotEvaluate(left: string, right: string): string {
    "Runtime Error: couldn't evaluate type '" + left + "' with type '" + right + "'"
  }

  function InvalidBoolOperator(op: TokenKind): string {
    "Runtime Error: Invalid value type (found type '" + TokenName(op) + "')"
  }

  function WrongArity(id: string): string {
    "Parameter size for funciton '" + id + "' is invalid for its arguments."
  }

  function InvalidParameter(id: string, found: string): string {
    "Function '" + id + "' have an invalid parameter: " + found
  }

  // ---------------------------------------------------------------------
  // The pure parts: values of literals, unary and binary operators, if
  // conditions and printed text.

  /**
   * `VisitUnaryNode` once the operand is evaluated: a number is negated
   * whatever the operator token; a bool is inverted by `!` only.
   */
  function Unary(token: TokenKind, v: Any): (r: Res<Any>)
    ensures r.Ok? <==> v.Num? || (v.Bool? && token == Bang)
    ensures r.Fail? ==> r.abrupt.Catchable()
    ensures r.Ok? ==> (r.value.Num? <==> v.Num?) && (r.value.Bool? <==> v.Bool?)
    ensures v.Num? ==> r == Ok(Num(Negate(v.n)))
    ensures v.Bool? && token == Bang ==> r == Ok(Bool(!v.b))
  {
    match v
    case Num(x) => Ok(Num(Negate(x)))
    case Bool(b) => if token == Bang then Ok(Bool(!b)) else Fail(InvalidArgument(ExpectedBang))
    case _ => Fail(InvalidArgument(InvalidUnary(TypeName(v))))
  }

  /** `+ - * / == !=` on two numbers, each computed in the operands' common type. */
  function NumberBinary(op: TokenKind, a: Number, b: Number): (r: Res<Any>)
    ensures r.Ok? ==> r.value.Num?
    ensures op in {Plus, Minus, Star} ==> r.Ok? && KindOf(r.value.n) == CommonKind(KindOf(a), KindOf(b))
    ensures op in {EqualEqual, BangEqual} && r.Ok? ==> r.value.n.Int? && (r.value.n.v == 1 || r.value.n.v == 0)
    ensures r.Fail? && r.abrupt.Catchable() <==> op !in {Plus, Minus, Star, Slash, EqualEqual, BangEqual}
  {
    if op in {Plus, Minus, Star, Slash} then
      MixedWidthsCombineAll(op, a, b);
      match Arith(op, a, b)
      case Ok(x) => Ok(Num(x))
      case Fail(e) => Fail(e)
    else if op in {EqualEqual, BangEqual} then
      match Equality(op, a, b)
      case Ok(x) => Ok(Num(x))
      case Fail(e) => Fail(e)
    else Fail(InvalidArgument(CannotEvaluate(WidthName(a), WidthName(b))))
  }

  /** `Arith` fails only by trapping, which is not an `std::invalid_argument`. */
  lemma MixedWidthsCombineAll(op: TokenKind, a: Number, b: Number)
    requires op in {Plus, Minus, Star, Slash}
    ensures Arith(op, a, b).Fail? ==> !Arith(op, a, b).abrupt.Catchable()
    ensures op != Slash ==> Arith(op, a, b).Ok?
  {
    if op != Slash {
      MixedWidthsCombine(op, a, b);
    }
  }

  /**
   * `VisitBinaryExpression` once both operands are evaluated: two numbers
   * combine, two bools combine under `&&` and `||` only, and any other
   * pair of categories is an error naming both types.
   */
  function Binary(op: TokenKind, l: Any, r: Any): (v: Res<Any>)
    ensures v.Fail? && v.abrupt.Catchable() <==>
      !(l.Num? && r.Num? && op in {Plus, Minus, Star, Slash, EqualEqual, BangEqual}) &&
      !(l.Bool? && r.Bool? && (op == AmpersandAmpersand || op == PipePipe))
    ensures v.Ok? && l.Bool? ==> v.value.Bool?
    ensures v.Ok? && l.Num? ==> v.value.Num?
    ensures l.Num? && r.Num? ==> v == NumberBinary(op, l.n, r.n)
    ensures l.Bool? && r.Bool? && op == AmpersandAmpersand ==> v == Ok(Bool(l.b && r.b))
    ensures l.Bool? && r.Bool? && op == PipePipe ==> v == Ok(Bool(l.b || r.b))
  {
    if l.Num? && r.Num? then NumberBinary(op, l.n, r.n)
    else if l.Bool? && r.Bool? then
      if op == AmpersandAmpersand then Ok(Bool(l.b && r.b))
      else if op == PipePipe then Ok(Bool(l.b || r.b))
      else Fail(InvalidArgument(InvalidBoolOperator(op)))
    else Fail(InvalidArgument(CannotEvaluate(TypeName(l), TypeName(r))))
  }

  /**
   * Whether an if statement runs its block: a bool decides by itself, a
   * number when it equals 1; any other value is an error.
   */
  function Condition(v: Any): (r: Res<bool>)
    ensures r.Ok? && r.value <==> v == Bool(true) || (v.Num? && v.n.IsIntegral() && v.n.v == 1)
    ensures r.Fail? && r.abrupt.Catchable() <==> !v.Num? && !v.Bool?
  {
    match v
    case Bool(b) => Ok(b)
    case Num(x) => if x.IsIntegral() then Ok(x.v == 1) else Fail(Unmodelled("floating-point comparison"))
    case _ => Fail(InvalidArgument(NotABool(TypeName(v))))
  }

  /**
   * What `VisitPrintStmt` writes for a value.  A bool is written as `1` or
   * `0`: `std::cout << r ? "true" : "false"` applies `<<` to `r` before the
   * conditional operator.  No newline follows.
   */
  function PrintText(v: Any): (r: Res<Printed>)
    ensures r.Ok? <==> v.Num? || v.Bool? || v.Str? || v.NullPtr?
    ensures r.Fail? ==> r.abrupt.Catchable()
    ensures v.Bool? ==> r == Ok(Text(if v.b then "1" else "0"))
    ensures v.Str? ==> r == Ok(Text(v.s))
    ensures v.NullPtr? ==> r == Ok(Text("null"))
    ensures v.Num? && v.n.IsIntegral() ==> r == Ok(Text(IntToDecimal(v.n.v)))
  {
    match v
    case Num(x) => Ok(if x.IsIntegral() then Text(IntToDecimal(x.v)) else FloatText(KindOf(x), x.f))
    case Bool(b) => Ok(Text(if b then "1" else "0"))
    case Str(s) => Ok(Text(s))
    case NullPtr => Ok(Text("null"))
    case _ => Fail(InvalidArgument(InvalidPrint(TypeName(v))))
  }

  // ---------------------------------------------------------------------
  // The stateful parts.

  /** `env_stack.Get(id)` for a value: not found, the `std::invalid_argument` propagates. */
  function Fetch(id: string, st: RunState): (e: Evaluated)
    requires st.Valid()
    ensures e.after.Valid() && e.after == st.(current := e.after.current)
    ensures e.result.Ok? <==> exists j :: 0 <= j <= st.current && id in st.envs[j]
    ensures e.result.Fail? ==> e.result == Fail(InvalidArgument(VariableNotFound(id)))
  {
    InnermostFindsAny(st.envs, st.current, id);
    match Innermost(st.envs, st.current, id)
    case Some(k) => Evaluated(Ok(st.envs[k][id].value), st.(current := |st.envs| - 1))
    case None => Evaluated(Fail(InvalidArgument(VariableNotFound(id))), st.(current := -1))
  }

  /**
   * `env_stack.Add(var)`: with the cursor below the bottom `GetRef` throws
   * a pointer nobody catches; a duplicate name leaves the scope alone and
   * its message is printed on a line of its own.
   */
  function Added(t: TokenKind, id: string, value: Any, st: RunState): (e: Evaluated)
    requires st.Valid()
    ensures e.after.Valid() && e.after.funcs == st.funcs && e.after.buffer == st.buffer
    ensures e.result.Fail? <==> st.current < 0
    ensures e.result.Ok? ==> e.result.value == Empty && |e.after.envs| == |st.envs| && e.after.current == |st.envs| - 1
    ensures e.result.Ok? && id !in st.envs[st.current] ==>
      e.after.envs == st.envs[st.current := st.envs[st.current][id := Variable(FromToken(t), id, value)]] && e.after.output == st.output
    ensures e.result.Ok? && id in st.envs[st.current] ==>
      e.after.envs == st.envs && e.after.output == st.output + [Text(Environments.AlreadyDeclared(id) + "\n")]
  {
    if st.current < 0 then Evaluated(Fail(NoEnvironment), st)
    else
      match Declare(st.envs[st.current], Variable(FromToken(t), id, value))
      case Ok(scope) => Evaluated(Ok(Empty), st.(envs := st.envs[st.current := scope], current := |st.envs| - 1))
      case Fail(a) => Evaluated(Ok(Empty), st.(current := |st.envs| - 1, output := st.output + [Text(a.msg + "\n")]))
  }

  /** `env_stack.Assign(id, value)`: only the lookup shows; no scope changes. */
  function Assigned(id: string, st: RunState): (e: Evaluated)
    requires st.Valid()
    ensures e.after.Valid() && e.after == st.(current := e.after.current)
    ensures e.result.Ok? <==> exists j :: 0 <= j <= st.current && id in st.envs[j]
    ensures e.result.Ok? ==> e.result.value == Empty
    ensures e.result.Fail? ==> e.result == Fail(InvalidArgument(VariableNotFound(id)))
  {
    InnermostFindsAny(st.envs, st.current, id);
    match Innermost(st.envs, st.current, id)
    case Some(_) => Evaluated(Ok(Empty), st.(current := |st.envs| - 1))
    case None => Evaluated(Fail(InvalidArgument(VariableNotFound(id))), st.(current := -1))
  }

  /** `env_stack.Pop()` after a call: the top scope goes, whichever it is; an empty stack stays. */
  function Popped(st: RunState): (p: RunState)
    requires st.Valid()
    ensures p.Valid() && p.funcs == st.funcs && p.output == st.output && p.buffer == st.buffer
    ensures st.envs != [] ==> p.envs == st.envs[..|st.envs| - 1] && p.current == |p.envs| - 1
    ensures st.envs == [] ==> p == st
  {
    if st.envs == [] then st else st.(envs := st.envs[..|st.envs| - 1], current := |st.envs| - 2)
  }

  /** A visit whose value is dropped. */
  function Discard(e: Evaluated): (d: Evaluated)
    ensures d.after == e.after && (d.result.Fail? <==> e.result.Fail?)
    ensures d.result.Fail? ==> d.result == e.result
    ensures d.result.Ok? ==> d.result.value == Empty
  {
    if e.result.Fail? then e else Evaluated(Ok(Empty), e.after)
  }

  /** A subset has no more elements than the set that contains it. */
  lemma {:induction false} SubsetNoLarger<T>(a: set<T>, b: set<T>)
    requires a <= b
    ensures |a| <= |b|
    decreases |a|
  {
    if a != {} {
      var x :| x in a;
      SubsetNoLarger(a - {x}, b - {x});
    }
  }

  /**
   * One `Accept(*this)` of the interpreter on `n`.  The measure is the
   * number of function bodies not yet moved out of the table, then the
   * node: a call runs a stored body only after `Get` has moved it out.
   */
  function Eval(n: Node, st: RunState): (e: Evaluated)
    requires st.Valid()
    ensures e.after.Valid()
    ensures Pending(e.after.funcs) <= Pending(st.funcs) && e.after.funcs.Keys == st.funcs.Keys
    ensures st.output <= e.after.output
    decreases |Pending(st.funcs)|, n, 1
  {
    match n
    case Null => Evaluated(Fail(NullDereference), st)
    case NumberNode(x) => Evaluated(Ok(Num(x)), st)
    case StringNode(text) => Evaluated(Ok(Str(text)), st)
    case BoolNode(b) => Evaluated(Ok(Bool(b)), st)
    case IdentifierNode(id) => Fetch(id, st)
    case UnaryNode(token, operand) =>
      var o := Eval(operand, st);
      if o.result.Fail? then o else Evaluated(Unary(token, o.result.value), o.after)
    case BinaryExpression(left, op, right) =>
      var l := Eval(left, st);
      if l.result.Fail? then l
      else
        SubsetNoLarger(Pending(l.after.funcs), Pending(st.funcs));
        var r := Eval(right, l.after);
        if r.result.Fail? then r
        else Evaluated(Binary(op, l.result.value, r.result.value), r.after)
    case IfStmt(condition, block) =>
      var c := Eval(condition, st);
      if c.result.Fail? then c
      else
        var taken := Condition(c.result.value);
        if taken.Fail? then Evaluated(Fail(taken.abrupt), c.after)
        else if !taken.value then Evaluated(Ok(Empty), c.after)
        else
          SubsetNoLarger(Pending(c.after.funcs), Pending(st.funcs));
          Discard(Eval(block, c.after))
    case PrintStmt(e) =>
      var o := Eval(e, st);
      if o.result.Fail? then o
      else
        var p := PrintText(o.result.value);
        if p.Fail? then Evaluated(Fail(p.abrupt), o.after)
        else Evaluated(Ok(Empty), o.after.(output := o.after.output + [p.value]))
    case VarDeclaration(t, id, e) =>
      if e == Null then Added(t, id, NullPtr, st)
      else
        var o := Eval(e, st);
        if o.result.Fail? then o else Added(t, id, o.result.value, o.after)
    case VarAssignment(id, e) =>
      var o := Eval(e, st);
      if o.result.Fail? then o else Assigned(id, o.after)
    case FunctionCall(_, _) => Call(n, st)
    case BlockStmt(_) =>
      var scope := Seed(st.buffer);
      if scope.Fail? then Evaluated(Fail(scope.abrupt), st.(buffer := []))
      else RunBlock(n, 0, st.(envs := st.envs + [scope.value], current := |st.envs|, buffer := []))
  }

  /** `VisitBlockStmtNode` from statement `i` on, once the block's scope is pushed. */
  function RunBlock(block: Node, i: nat, st: RunState): (e: Evaluated)
    requires st.Valid() && block.BlockStmt? && i <= |block.stmts|
    ensures e.after.Valid()
    ensures Pending(e.after.funcs) <= Pending(st.funcs) && e.after.funcs.Keys == st.funcs.Keys
    ensures st.output <= e.after.output
    ensures e.result.Ok? ==> e.result.value == Empty
    decreases |Pending(st.funcs)|, block, 0, |block.stmts| - i
  {
    if i == |block.stmts| then Evaluated(Ok(Empty), st)
    else
      var o := Eval(block.stmts[i], st);
      if o.result.Fail? then o
      else
        SubsetNoLarger(Pending(o.after.funcs), Pending(st.funcs));
        RunBlock(block, i + 1, o.after)
  }

  /**
   * `VisitFunctionCallNode`: the definition is moved out of the table, the
   * arity checked, the arguments evaluated and bound in order, and the
   * parameters handed to the body through the buffer; after the body one
   * scope is popped and the call's value is empty.
   */
  function Call(call: Node, st: RunState): (e: Evaluated)
    requires st.Valid() && call.FunctionCall?
    ensures e.after.Valid()
    ensures Pending(e.after.funcs) <= Pending(st.funcs) && e.after.funcs.Keys == st.funcs.Keys
    ensures st.output <= e.after.output
    ensures e.result.Ok? ==> e.result.value == Empty
    decreases |Pending(st.funcs)|, call, 0
  {
    if call.identifier !in st.funcs then Evaluated(Fail(InvalidArgument(NotDeclared(call.identifier))), st)
    else
      var f := st.funcs[call.identifier];
      MoveOutShrinksPending(st.funcs, call.identifier);
      var moved := st.(funcs := st.funcs[call.identifier := MovedFrom(f)]);
      SubsetNoLarger(Pending(moved.funcs), Pending(st.funcs) - {call.identifier});
      CallOf(|Pending(st.funcs)|, call, f, moved)
  }

  /**
   * A call once its definition `f` is moved out: the arity is checked, the
   * arguments are bound, and the body is invoked with them in the buffer.
   * `bound` is the measure of the call, above that of the state here when
   * `f` still had a body.
   */
  function CallOf(bound: nat, call: Node, f: FuncVariable, st: RunState): (e: Evaluated)
    requires st.Valid() && call.FunctionCall?
    requires |Pending(st.funcs)| <= bound && (f.blockStmt != Null ==> |Pending(st.funcs)| < bound)
    ensures e.after.Valid()
    ensures Pending(e.after.funcs) <= Pending(st.funcs) && e.after.funcs.Keys == st.funcs.Keys
    ensures st.output <= e.after.output
    ensures e.result.Ok? ==> e.result.value == Empty
    ensures |f.parameters| != |call.arguments| ==> e == Evaluated(Fail(InvalidArgument(WrongArity(f.identifier))), st)
    decreases bound, call, 0, 1
  {
    if |f.parameters| != |call.arguments| then Evaluated(Fail(InvalidArgument(WrongArity(f.identifier))), st)
    else
      var b := Bind(call, f, 0, f.parameters, st);
      if b.result.Fail? then Evaluated(Fail(b.result.abrupt), b.after)
      else
        if f.blockStmt == Null then Evaluated(Fail(NullDereference), b.after.(buffer := b.result.value))
        else
          SubsetNoLarger(Pending(b.after.funcs), Pending(st.funcs));
          Invoke(bound, call, f.blockStmt, b.after.(buffer := b.result.value))
  }

  /**
   * The end of a call, once the parameters are in the buffer: the body
   * runs and one scope is popped.  `bound` is the measure of the call,
   * above that of the state here.
   */
  function Invoke(bound: nat, call: Node, body: Node, st: RunState): (e: Evaluated)
    requires st.Valid() && body != Null && |Pending(st.funcs)| < bound
    ensures e.after.Valid()
    ensures Pending(e.after.funcs) <= Pending(st.funcs) && e.after.funcs.Keys == st.funcs.Keys
    ensures st.output <= e.after.output
    ensures e.result.Ok? ==> e.result.value == Empty
    decreases bound, call, 0, 0
  {
    var run := Eval(body, st);
    if run.result.Fail? then run else Evaluated(Ok(Empty), Popped(run.after))
  }

  /**
   * The argument loop of a call from argument `i` on: each value must be a
   * number or a bool, and parameter `k` takes the value of argument `k`,
   * keeping its own type and name.
   */
  function Bind(call: Node, f: FuncVariable, i: nat, params: seq<Variable>, st: RunState): (b: Bound)
    requires st.Valid() && call.FunctionCall? && i <= |call.arguments| == |params|
    ensures b.after.Valid()
    ensures Pending(b.after.funcs) <= Pending(st.funcs) && b.after.funcs.Keys == st.funcs.Keys
    ensures st.output <= b.after.output
    ensures b.result.Ok? ==> |b.result.value| == |params|
    ensures b.result.Ok? ==> forall k :: 0 <= k < i ==> b.result.value[k] == params[k]
    ensures b.result.Ok? ==> forall k :: i <= k < |params| ==>
      b.result.value[k].dtType == params[k].dtType && b.result.value[k].identifier == params[k].identifier &&
      (b.result.value[k].value.Num? || b.result.value[k].value.Bool?)
    decreases |Pending(st.funcs)|, call, 0, 0, |call.arguments| - i
  {
    if i == |call.arguments| then Bound(Ok(params), st)
    else
      var a := Eval(call.arguments[i], st);
      if a.result.Fail? then Bound(Fail(a.result.abrupt), a.after)
      else if a.result.value.Num? || a.result.value.Bool? then
        SubsetNoLarger(Pending(a.after.funcs), Pending(st.funcs));
        Bind(call, f, i + 1, params[i := params[i].(value := a.result.value)], a.after)
      else Bound(Fail(InvalidArgument(InvalidParameter(f.identifier, TypeName(a.result.value)))), a.after)
  }

  // ---------------------------------------------------------------------
  // The interpreter object.

  class Interpreter {
    const envStack: EnvStack
    const functionMemory: FunctionMemory
    var buffer: seq<Variable>
    var runtimeErrors: seq<string>
    var output: seq<Printed>

    /** The interpreter takes over a scope stack and shares the parser's function table. */
    constructor(envStack: EnvStack, functionMemory: FunctionMemory)
      ensures this.envStack == envStack && this.functionMemory == functionMemory
      ensures buffer == [] && runtimeErrors == [] && output == []
    {
      this.envStack := envStack;
      this.functionMemory := functionMemory;
      buffer := [];
      runtimeErrors := [];
      output := [];
    }

    predicate Valid()
      reads this, envStack
    {
      envStack.Valid()
    }

    /** The object's state is `st`. */
    predicate At(st: RunState)
      reads this, envStack, functionMemory
    {
      envStack.envs == st.envs && envStack.current == st.current && functionMemory.funcs == st.funcs &&
      buffer == st.buffer && output == st.output
    }

    /** The visit ended as `e` says. */
    predicate Reaches(r: Res<Any>, e: Evaluated)
      reads this, envStack, functionMemory
    {
      r == e.result && At(e.after)
    }

    /** `Report`: appends one runtime error. */
    method Report(error: string)
      modifies this
      ensures runtimeErrors == old(runtimeErrors) + [error]
      ensures buffer == old(buffer) && output == old(output)
    {
      runtimeErrors := runtimeErrors + [error];
    }

    /**
     * `Interpret`: visits the root; an `std::invalid_argument` is caught,
     * reported, and turned into an empty result, keeping whatever the visit
     * changed before it threw.  Any other exit ends the process.
     */
    method Interpret(root: Node) returns (r: Res<Any>)
      requires Valid()
      modifies this, envStack, functionMemory
      ensures Valid()
      ensures var e := Eval(root, RunState(old(envStack.envs), old(envStack.current), old(functionMemory.funcs), old(buffer), old(output)));
        At(e.after) &&
        (e.result.Fail? && e.result.abrupt.Catchable() ==>
          r == Ok(Empty) && runtimeErrors == old(runtimeErrors) + [e.result.abrupt.msg]) &&
        (!(e.result.Fail? && e.result.abrupt.Catchable()) ==> r == e.result && runtimeErrors == old(runtimeErrors))
    {
      r := Accept(root);
      if r.Fail? && r.abrupt.Catchable() {
        Report(r.abrupt.msg);
        r := Ok(Empty);
      }
    }

    /** `n->Accept(*this)`: the double dispatch to the visit of `n`'s node class. */
    method Accept(n: Node) returns (r: Res<Any>)
      requires Valid()
      modifies this, envStack, functionMemory
      ensures Valid() && runtimeErrors == old(runtimeErrors)
      ensures Reaches(r, Eval(n, RunState(old(envStack.envs), old(envStack.current), old(functionMemory.funcs), old(buffer), old(output))))
      decreases |Pending(functionMemory.funcs)|, n, 1
    {
      match n
      case Null => r := Fail(NullDereference);
      case NumberNode(x) => r := Ok(Num(x));
      case StringNode(text) => r := Ok(Str(text));
      case BoolNode(b) => r := Ok(Bool(b));
      case IdentifierNode(_) => r := VisitIdentifier(n);
      case UnaryNode(_, _) => r := VisitUnary(n);
      case BinaryExpression(_, _, _) => r := VisitBinary(n);
      case IfStmt(_, _) => r := VisitIf(n);
      case PrintStmt(_) => r := VisitPrint(n);
      case VarDeclaration(_, _, _) => r := VisitDeclaration(n);
      case VarAssignment(_, _) => r := VisitAssignment(n);
      case FunctionCall(_, _) => r := VisitCall(n);
      case BlockStmt(_) => r := VisitBlock(n);
    }

    /** `VisitIdentifierNode`: the value bound to the name in the innermost scope that has it. */
    method VisitIdentifier(n: Node) returns (r: Res<Any>)
      requires Valid() && n.IdentifierNode?
      modifies this, envStack, functionMemory
      ensures Valid() && runtimeErrors == old(runtimeErrors)
      ensures Reaches(r, Eval(n, RunState(old(envStack.envs), old(envStack.current), old(functionMemory.funcs), old(buffer), old(output))))
    {
      var found := envStack.GetVariable(n.identifier);
      if found.Fail? {
        return Fail(found.abrupt);
      }
      r := Ok(found.value.0.value);
    }

    /** `VisitUnaryNode`. */
    method VisitUnary(n: Node) returns (r: Res<Any>)
      requires Valid() && n.UnaryNode?
      modifies this, envStack, functionMemory
      ensures Valid() && runtimeErrors == old(runtimeErrors)
      ensures Reaches(r, Eval(n, RunState(old(envStack.envs), old(envStack.current), old(functionMemory.funcs), old(buffer), old(output))))
      decreases |Pending(functionMemory.funcs)|, n, 0
    {
      var operand := Accept(n.operand);
      if operand.Fail? {
        return operand;
      }
      r := Unary(n.token, operand.value);
    }

    /** `VisitBinaryExpression`: left, then right, then the operator. */
    method VisitBinary(n: Node) returns (r: Res<Any>)
      requires Valid() && n.BinaryExpression?
      modifies this, envStack, functionMemory
      ensures Valid() && runtimeErrors == old(runtimeErrors)
      ensures Reaches(r, Eval(n, RunState(old(envStack.envs), old(envStack.current), old(functionMemory.funcs), old(buffer), old(output))))
      decreases |Pending(functionMemory.funcs)|, n, 0
    {
      ghost var p0 := Pending(functionMemory.funcs);
      var left := Accept(n.left);
      if left.Fail? {
        return left;
      }
      SubsetNoLarger(Pending(functionMemory.funcs), p0);
      var right := Accept(n.right);
      if right.Fail? {
        return right;
      }
      r := Binary(n.op, left.value, right.value);
    }

    /** `VisitIfStmtNode`: the condition decides whether the block runs. */
    method VisitIf(n: Node) returns (r: Res<Any>)
      requires Valid() && n.IfStmt?
      modifies this, envStack, functionMemory
      ensures Valid() && runtimeErrors == old(runtimeErrors)
      ensures Reaches(r, Eval(n, RunState(old(envStack.envs), old(envStack.current), old(functionMemory.funcs), old(buffer), old(output))))
      decreases |Pending(functionMemory.funcs)|, n, 0
    {
      ghost var p0 := Pending(functionMemory.funcs);
      var condition := Accept(n.expression);
      if condition.Fail? {
        return condition;
      }
      var taken := Condition(condition.value);
      if taken.Fail? {
        return Fail(taken.abrupt);
      }
      if taken.value {
        SubsetNoLarger(Pending(functionMemory.funcs), p0);
        var block := Accept(n.blockStmt);
        if block.Fail? {
          return block;
        }
      }
      r := Ok(Empty);
    }

    /** `VisitPrintStmt`: writes the value's text. */
    method VisitPrint(n: Node) returns (r: Res<Any>)
      requires Valid() && n.PrintStmt?
      modifies this, envStack, functionMemory
      ensures Valid() && runtimeErrors == old(runtimeErrors)
      ensures Reaches(r, Eval(n, RunState(old(envStack.envs), old(envStack.current), old(functionMemory.funcs), old(buffer), old(output))))
      decreases |Pending(functionMemory.funcs)|, n, 0
    {
      var value := Accept(n.expression);
      if value.Fail? {
        return value;
      }
      var text := PrintText(value.value);
      if text.Fail? {
        return Fail(text.abrupt);
      }
      output := output + [text.value];
      r := Ok(Empty);
    }

    /** `VisitVarDeclarationStmt`: `nullptr` unless there is an initializer, then `EnvStack::Add`. */
    method VisitDeclaration(n: Node) returns (r: Res<Any>)
      requires Valid() && n.VarDeclaration?
      modifies this, envStack, functionMemory
      ensures Valid() && runtimeErrors == old(runtimeErrors)
      ensures Reaches(r, Eval(n, RunState(old(envStack.envs), old(envStack.current), old(functionMemory.funcs), old(buffer), old(output))))
      decreases |Pending(functionMemory.funcs)|, n, 0
    {
      var value: Any := NullPtr;
      if n.expression != Null {
        var e := Accept(n.expression);
        if e.Fail? {
          return e;
        }
        value := e.value;
      }
      var added := envStack.Add(Variable(FromToken(n.variableType), n.identifier, value));
      if added.Fail? {
        return Fail(added.abrupt);
      }
      if added.value.Some? {
        output := output + [Text(added.value.value + "\n")];
      }
      r := Ok(Empty);
    }

    /** `VisitVarAssignmentStmt`: the value is computed, then `EnvStack::Assign`. */
    method VisitAssignment(n: Node) returns (r: Res<Any>)
      requires Valid() && n.VarAssignment?
      modifies this, envStack, functionMemory
      ensures Valid() && runtimeErrors == old(runtimeErrors)
      ensures Reaches(r, Eval(n, RunState(old(envStack.envs), old(envStack.current), old(functionMemory.funcs), old(buffer), old(output))))
      decreases |Pending(functionMemory.funcs)|, n, 0
    {
      var value := Accept(n.expression);
      if value.Fail? {
        return value;
      }
      var rebound := envStack.Assign(n.identifier, value.value);
      if rebound.Fail? {
        return Fail(rebound.abrupt);
      }
      r := Ok(Empty);
    }

    /** `VisitFunctionCallNode`. */
    method VisitCall(n: Node) returns (r: Res<Any>)
      requires Valid() && n.FunctionCall?
      modifies this, envStack, functionMemory
      ensures Valid() && runtimeErrors == old(runtimeErrors)
      ensures Reaches(r, Call(n, RunState(old(envStack.envs), old(envStack.current), old(functionMemory.funcs), old(buffer), old(output))))
      decreases |Pending(functionMemory.funcs)|, n, 0
    {
      ghost var p0 := Pending(functionMemory.funcs);
      var got := functionMemory.Get(n.identifier);
      if got.Fail? {
        return Fail(got.abrupt);
      }
      SubsetNoLarger(Pending(functionMemory.funcs), p0 - {n.identifier});
      r := RunCall(|p0|, n, got.value);
    }

    /** `VisitFunctionCallNode` once the definition is moved out: arity, arguments, body. */
    method RunCall(ghost bound: nat, call: Node, f: FuncVariable) returns (r: Res<Any>)
      requires Valid() && call.FunctionCall?
      requires |Pending(functionMemory.funcs)| <= bound && (f.blockStmt != Null ==> |Pending(functionMemory.funcs)| < bound)
      modifies this, envStack, functionMemory
      ensures Valid() && runtimeErrors == old(runtimeErrors)
      ensures Reaches(r, CallOf(bound, call, f, RunState(old(envStack.envs), old(envStack.current), old(functionMemory.funcs), old(buffer), old(output))))
      decreases bound, call, 0, 1
    {
      ghost var p0 := Pending(functionMemory.funcs);
      if |f.parameters| != |call.arguments| {
        return Fail(InvalidArgument(WrongArity(f.identifier)));
      }
      var params := BindArguments(call, f);
      if params.Fail? {
        return Fail(params.abrupt);
      }
      buffer := params.value;
      if f.blockStmt == Null {
        return Fail(NullDereference);
      }
      SubsetNoLarger(Pending(functionMemory.funcs), p0);
      r := RunBody(bound, call, f.blockStmt);
    }

    /** The end of `VisitFunctionCallNode`: the body runs, then `env_stack.Pop()`. */
    method RunBody(ghost bound: nat, call: Node, body: Node) returns (r: Res<Any>)
      requires Valid() && body != Null && |Pending(functionMemory.funcs)| < bound
      modifies this, envStack, functionMemory
      ensures Valid() && runtimeErrors == old(runtimeErrors)
      ensures var e := Eval(body, RunState(old(envStack.envs), old(envStack.current), old(functionMemory.funcs), old(buffer), old(output)));
        if e.result.Fail? then Reaches(r, e) else Reaches(r, Evaluated(Ok(Empty), Popped(e.after)))
      decreases bound, call, 0, 0
    {
      var run := Accept(body);
      if run.Fail? {
        return run;
      }
      var _ := envStack.Pop();
      r := Ok(Empty);
    }

    /** The argument loop of `VisitFunctionCallNode`: evaluates and binds each argument in turn. */
    method BindArguments(call: Node, f: FuncVariable) returns (r: Res<seq<Variable>>)
      requires Valid() && call.FunctionCall? && |f.parameters| == |call.arguments|
      modifies this, envStack, functionMemory
      ensures Valid() && runtimeErrors == old(runtimeErrors)
      ensures var b := Bind(call, f, 0, f.parameters, RunState(old(envStack.envs), old(envStack.current), old(functionMemory.funcs), old(buffer), old(output))); r == b.result && At(b.after)
      decreases |Pending(functionMemory.funcs)|, call, 0, 0, 0
    {
      ghost var p0 := Pending(functionMemory.funcs);
      ghost var whole := Bind(call, f, 0, f.parameters, RunState(old(envStack.envs), old(envStack.current), old(functionMemory.funcs), old(buffer), old(output)));
      var params := f.parameters;
      for i := 0 to |call.arguments|
        invariant Valid() && runtimeErrors == old(runtimeErrors)
        invariant |params| == |call.arguments|
        invariant Pending(functionMemory.funcs) <= p0
        invariant Bind(call, f, i, params, RunState(envStack.envs, envStack.current, functionMemory.funcs, buffer, output)) == whole
      {
        SubsetNoLarger(Pending(functionMemory.funcs), p0);
        var a := Accept(call.arguments[i]);
        if a.Fail? {
          return Fail(a.abrupt);
        }
        if !(a.value.Num? || a.value.Bool?) {
          return Fail(InvalidArgument(InvalidParameter(f.identifier, TypeName(a.value))));
        }
        params := params[i := params[i].(value := a.value)];
      }
      return Ok(params);
    }

    /**
     * `VisitBlockStmtNode`: the buffer is taken and emptied, its variables
     * are set in a new scope, the scope is pushed (and never popped here),
     * and the statements run in order.
     */
    method VisitBlock(n: Node) returns (r: Res<Any>)
      requires Valid() && n.BlockStmt?
      modifies this, envStack, functionMemory
      ensures Valid() && runtimeErrors == old(runtimeErrors)
      ensures Reaches(r, Eval(n, RunState(old(envStack.envs), old(envStack.current), old(functionMemory.funcs), old(buffer), old(output))))
      decreases |Pending(functionMemory.funcs)|, n, 0
    {
      var args := buffer;
      buffer := [];
      var scope := BlockScope(args);
      if scope.Fail? {
        return Fail(scope.abrupt);
      }
      envStack.Push(scope.value);
      r := RunStatements(n);
    }

    /** The statement loop of `VisitBlockStmtNode`. */
    method RunStatements(n: Node) returns (r: Res<Any>)
      requires Valid() && n.BlockStmt?
      modifies this, envStack, functionMemory
      ensures Valid() && runtimeErrors == old(runtimeErrors)
      ensures Reaches(r, RunBlock(n, 0, RunState(old(envStack.envs), old(envStack.current), old(functionMemory.funcs), old(buffer), old(output))))
      decreases |Pending(functionMemory.funcs)|, n, 0, 0
    {
      ghost var p0 := Pending(functionMemory.funcs);
      ghost var whole := RunBlock(n, 0, RunState(old(envStack.envs), old(envStack.current), old(functionMemory.funcs), old(buffer), old(output)));
      for i := 0 to |n.stmts|
        invariant Valid() && runtimeErrors == old(runtimeErrors)
        invariant Pending(functionMemory.funcs) <= p0
        invariant RunBlock(n, i, RunState(envStack.envs, envStack.current, functionMemory.funcs, buffer, output)) == whole
      {
        SubsetNoLarger(Pending(functionMemory.funcs), p0);
        var s := Accept(n.stmts[i]);
        if s.Fail? {
          return s;
        }
      }
      r := Ok(Empty);
    }
  }
}
