/**
 * semantic.cpp: the checker that runs between the parser and the
 * interpreter.  It visits the top-level statements with its own scope
 * stack, computes a "witness" for each expression (a bare `short`, `int`,
 * `long`, `float` or `double` equal to 1 that stands for the expression's
 * width, a `bool`, a string, or nothing) and collects error messages.
 *
 * The witness computations are pure; the identifier lookups move the scope
 * stack's cursor, declarations add to the stack, and reports append to the
 * error list.  `CheckNode` is the specification of one visit over an
 * explicit `SemState`; the `Semantic` class is proved against it.
 */
module Semantics {
  import opened Outcomes
  import opened Tokens
  import opened Values
  import opened Ast
  import opened Variables
  import opened Environments
  import opened EnvStacks
  import opened FunctionMemories

  /** The checker's error list and its scope stack (scopes and lookup cursor). */
  datatype SemState = SemState(errors: seq<string>, envs: seq<Scope>, current: int)
  {
    /** The cursor is on a scope or just below the bottom, as `EnvStack::Valid` requires. */
    predicate Valid() {
      -1 <= current < |envs|
    }
  }

  /** The `std::any` a visit returns (or the uncaught exit that ends it) and the state after it. */
  datatype Checked = Checked(result: Res<Any>, after: SemState)

  /** What a scope lookup found and the state it leaves. */
  datatype Found = Found(variable: Option<Variable>, after: SemState)

  /** The four operators the checker computes a width for. */
  predicate IsArithmetic(op: TokenKind) {
    op == Plus || op == Minus || op == Star || op == Slash
  }

  /** `(T)1` for the type `T` of width `k`. */
  function Unit(k: NumKind): (u: Number)
    ensures KindOf(u) == k
    ensures u.IsIntegral() ==> u.v == 1
  {
    match k
    case KShort => Short(1)
    case KInt => Int(1)
    case KLong => Long(1)
    case KFloat => Float(FInt(1))
    case KDouble => Double(FInt(1))
  }

  /** `VisitNumberNode`: a witness of the literal's own width. */
  function NumberWitness(n: Number): (w: Any)
    ensures w.Raw? && KindOf(w.r) == KindOf(n)
    ensures w.r.IsIntegral() ==> w.r.v == 1
  {
    match n
    case Short(_) => Raw(Short(1))
    case Int(_) => Raw(Int(1))
    case Long(_) => Raw(Long(1))
    case Float(_) => Raw(Float(FInt(1)))
    case Double(_) => Raw(Double(FInt(1)))
  }

  /**
   * `VisitBinaryExpression` once both operands are visited: for `+ - * /`
   * two witnesses of the same width give a witness of that width; any
   * other pair, and any other operator, give nothing, and nothing is
   * reported.
   */
  function BinaryWitness(op: TokenKind, a: Any, b: Any): (w: Any)
    ensures w != Empty <==> IsArithmetic(op) && a.Raw? && b.Raw? && KindOf(a.r) == KindOf(b.r)
    ensures w != Empty ==> w == Raw(Unit(KindOf(a.r)))
  {
    if !IsArithmetic(op) then Empty
    else match (a, b)
      case (Raw(Short(_)), Raw(Short(_))) => Raw(Short(1))
      case (Raw(Int(_)), Raw(Int(_))) => Raw(Int(1))
      case (Raw(Long(_)), Raw(Long(_))) => Raw(Long(1))
      case (Raw(Float(_)), Raw(Float(_))) => Raw(Float(FInt(1)))
      case (Raw(Double(_)), Raw(Double(_))) => Raw(Double(FInt(1)))
      case _ => Empty
  }

  /** The witness does not depend on the order of the operands. */
  lemma BinaryWitnessSymmetric(op: TokenKind, a: Any, b: Any)
    ensures BinaryWitness(op, a, b) == BinaryWitness(op, b, a)
  {
  }

  /**
   * `env_stack.Get(id)` with its `std::invalid_argument` caught and
   * reported: found, the binding is returned and the cursor goes back to
   * the top; not found, the message is appended and the cursor is left
   * below the bottom.
   */
  function Resolve(id: string, st: SemState): (f: Found)
    requires st.Valid()
    ensures f.after.Valid() && f.after.envs == st.envs
    ensures f.variable.Some? <==> exists j :: 0 <= j <= st.current && id in st.envs[j]
    ensures f.variable.Some? ==> f.after.errors == st.errors && f.after.current == |st.envs| - 1
    ensures f.variable.None? ==> f.after.errors == st.errors + [VariableNotFound(id)] && f.after.current == -1
  {
    InnermostFindsAny(st.envs, st.current, id);
    match Innermost(st.envs, st.current, id)
    case Some(k) => Found(Some(st.envs[k][id]), st.(current := |st.envs| - 1))
    case None => Found(None, SemState(st.errors + [VariableNotFound(id)], st.envs, -1))
  }

  /**
   * `env_stack.Add(var)` after the initializer is visited.  With the cursor
   * below the bottom, `GetRef` throws a pointer that no handler catches.
   * A duplicate name is printed by `Add` itself and neither changes the
   * scope nor reaches the checker's error list.
   */
  function Declared(t: TokenKind, id: string, value: Any, st: SemState): (c: Checked)
    requires st.Valid()
    ensures c.after.Valid() && c.after.errors == st.errors
    ensures c.result.Fail? <==> st.current < 0
    ensures c.result.Ok? ==> c.result.value == Empty && |c.after.envs| == |st.envs| && c.after.current == |st.envs| - 1
    ensures c.result.Ok? ==> id in c.after.envs[st.current]
  {
    if st.current < 0 then Checked(Fail(NoEnvironment), st)
    else
      match Declare(st.envs[st.current], Variable(FromToken(t), id, value))
      case Ok(scope) => Checked(Ok(Empty), st.(envs := st.envs[st.current := scope], current := |st.envs| - 1))
      case Fail(_) => Checked(Ok(Empty), st.(current := |st.envs| - 1))
  }

  /** A visit whose value is dropped: the visitor returns an empty `std::any` after it. */
  function Discard(c: Checked): (d: Checked)
    ensures d.after == c.after && (d.result.Fail? <==> c.result.Fail?)
    ensures d.result.Fail? ==> d.result == c.result
    ensures d.result.Ok? ==> d.result.value == Empty
  {
    if c.result.Fail? then c else Checked(Ok(Empty), c.after)
  }

  /** One `Accept(*this)` of the checker on `n`. */
  function CheckNode(n: Node, st: SemState): (c: Checked)
    requires st.Valid()
    ensures c.after.Valid()
    decreases n
  {
    match n
    case Null => Checked(Fail(NullDereference), st)
    case NumberNode(x) => Checked(Ok(NumberWitness(x)), st)
    case StringNode(text) => Checked(Ok(Str(text)), st)
    case BoolNode(_) => Checked(Ok(Bool(true)), st)
    case IdentifierNode(id) =>
      var f := Resolve(id, st);
      Checked(Ok(if f.variable.Some? then f.variable.value.value else Empty), f.after)
    case UnaryNode(_, operand) => Discard(CheckNode(operand, st))
    case BinaryExpression(left, op, right) =>
      var l := CheckNode(left, st);
      if l.result.Fail? then l
      else
        var r := CheckNode(right, l.after);
        if r.result.Fail? then r
        else Checked(Ok(BinaryWitness(op, l.result.value, r.result.value)), r.after)
    case VarDeclaration(t, id, e) =>
      var i := CheckNode(e, st);
      if i.result.Fail? then i else Declared(t, id, i.result.value, i.after)
    case VarAssignment(id, e) =>
      var v := CheckNode(e, st);
      if v.result.Fail? then v
      else
        var f := Resolve(id, v.after);
        Checked(Ok(if f.variable.Some? then TypeTag(f.variable.value.dtType) else Empty), f.after)
    case PrintStmt(e) => Discard(CheckNode(e, st))
    case IfStmt(_, _) => Checked(Ok(Empty), st)
    case FunctionCall(_, _) => Checked(Ok(Empty), st)
    case BlockStmt(_) => Checked(Ok(Empty), st)
  }

  /**
   * `Analyse`: the non-null statements are visited in order; an uncaught
   * exit ends the analysis, otherwise the final state holds the errors.
   */
  function Analysis(stmts: seq<Node>, st: SemState): (r: Res<SemState>)
    requires st.Valid()
    ensures r.Ok? ==> r.value.Valid()
    decreases |stmts|
  {
    if stmts == [] then Ok(st)
    else if stmts[0] == Null then Analysis(stmts[1..], st)
    else
      var c := CheckNode(stmts[0], st);
      if c.result.Fail? then Fail(c.result.abrupt) else Analysis(stmts[1..], c.after)
  }

  /** Whether visiting `n` can reach a declaration (blocks and if statements are not entered). */
  predicate Declares(n: Node) {
    match n
    case VarDeclaration(_, _, _) => true
    case UnaryNode(_, operand) => Declares(operand)
    case BinaryExpression(left, _, right) => Declares(left) || Declares(right)
    case VarAssignment(_, e) => Declares(e)
    case PrintStmt(e) => Declares(e)
    case _ => false
  }

  // ---------------------------------------------------------------------
  // Properties of the checker.

  /** Literals report nothing and leave the scope stack alone; a bool literal's witness is always `true`. */
  lemma LiteralsReportNothing(n: Node, st: SemState)
    requires st.Valid()
    requires n.NumberNode? || n.StringNode? || n.BoolNode?
    ensures CheckNode(n, st).after == st && CheckNode(n, st).result.Ok?
    ensures n.BoolNode? ==> CheckNode(n, st).result.value == Bool(true)
    ensures n.NumberNode? ==> CheckNode(n, st).result.value.Raw? && KindOf(CheckNode(n, st).result.value.r) == KindOf(n.number)
  {
  }

  /** If statements, calls and blocks are accepted without being entered: no report, no scope. */
  lemma UninspectedStatements(n: Node, st: SemState)
    requires st.Valid()
    requires n.IfStmt? || n.FunctionCall? || n.BlockStmt?
    ensures CheckNode(n, st) == Checked(Ok(Empty), st)
  {
  }

  /** An unresolved identifier in an expression is reported, and only then is anything reported. */
  lemma IdentifierReportedIffUnbound(id: string, st: SemState)
    requires st.Valid()
    ensures var c := CheckNode(IdentifierNode(id), st);
      (c.after.errors != st.errors <==> forall j :: 0 <= j <= st.current ==> id !in st.envs[j]) &&
      (c.after.errors != st.errors ==> c.after.errors == st.errors + [VariableNotFound(id)])
  {
  }

  /** The target of an assignment is looked up after its value; an unresolved target is reported. */
  lemma AssignmentTargetReportedIffUnbound(id: string, e: Node, st: SemState)
    requires st.Valid()
    requires CheckNode(e, st).result.Ok?
    ensures var v := CheckNode(e, st).after;
      var c := CheckNode(VarAssignment(id, e), st);
      (c.after.errors != v.errors <==> forall j :: 0 <= j <= v.current ==> id !in v.envs[j]) &&
      (c.after.errors != v.errors ==> c.after.errors == v.errors + [VariableNotFound(id)])
  {
  }

  /** The checker only ever appends to its error list. */
  lemma {:induction false} CheckOnlyAppends(n: Node, st: SemState)
    requires st.Valid()
    ensures st.errors <= CheckNode(n, st).after.errors
    decreases n
  {
    match n
    case UnaryNode(_, operand) => CheckOnlyAppends(operand, st);
    case BinaryExpression(left, _, right) =>
      CheckOnlyAppends(left, st);
      var l := CheckNode(left, st);
      if l.result.Ok? {
        CheckOnlyAppends(right, l.after);
      }
    case VarDeclaration(_, _, e) => CheckOnlyAppends(e, st);
    case VarAssignment(_, e) => CheckOnlyAppends(e, st);
    case PrintStmt(e) => CheckOnlyAppends(e, st);
    case _ =>
  }

  /**
   * Every `std::invalid_argument` raised during a visit is caught: the only
   * exits that end the checker are the uncaught ones (a null node, the
   * pointer thrown by `GetRef`).
   */
  lemma {:induction false} CheckFailsOnlyByCrash(n: Node, st: SemState)
    requires st.Valid()
    ensures CheckNode(n, st).result.Fail? ==> CheckNode(n, st).result.abrupt.Crash?
    decreases n
  {
    match n
    case UnaryNode(_, operand) => CheckFailsOnlyByCrash(operand, st);
    case BinaryExpression(left, _, right) =>
      CheckFailsOnlyByCrash(left, st);
      var l := CheckNode(left, st);
      if l.result.Ok? {
        CheckFailsOnlyByCrash(right, l.after);
      }
    case VarDeclaration(_, _, e) => CheckFailsOnlyByCrash(e, st);
    case VarAssignment(_, e) => CheckFailsOnlyByCrash(e, st);
    case PrintStmt(e) => CheckFailsOnlyByCrash(e, st);
    case _ =>
  }

  /**
   * A declaration without an initializer holds a null initializer, which
   * the checker visits before anything else: the visit dereferences null,
   * and the whole analysis ends there whatever follows.
   */
  lemma DeclarationWithoutInitializerCrashes(t: TokenKind, id: string, st: SemState, rest: seq<Node>)
    requires st.Valid()
    ensures CheckNode(VarDeclaration(t, id, Null), st) == Checked(Fail(NullDereference), st)
    ensures Analysis([VarDeclaration(t, id, Null)] + rest, st) == Fail(NullDereference)
  {
    assert ([VarDeclaration(t, id, Null)] + rest)[0] == VarDeclaration(t, id, Null);
  }

  /** Only a declaration changes the scopes; everything else at most moves the cursor. */
  lemma {:induction false} OnlyDeclarationsChangeScopes(n: Node, st: SemState)
    requires st.Valid() && !Declares(n)
    ensures CheckNode(n, st).after.envs == st.envs
    decreases n
  {
    match n
    case UnaryNode(_, operand) => OnlyDeclarationsChangeScopes(operand, st);
    case BinaryExpression(left, _, right) =>
      OnlyDeclarationsChangeScopes(left, st);
      var l := CheckNode(left, st);
      if l.result.Ok? {
        OnlyDeclarationsChangeScopes(right, l.after);
      }
    case VarAssignment(_, e) => OnlyDeclarationsChangeScopes(e, st);
    case PrintStmt(e) => OnlyDeclarationsChangeScopes(e, st);
    case _ =>
  }

  /** The checker never pushes a scope: an empty stack stays empty, with the cursor below the bottom. */
  lemma {:induction false} EmptyStackStaysEmpty(n: Node, st: SemState)
    requires st.Valid() && st.envs == []
    ensures CheckNode(n, st).after.envs == [] && CheckNode(n, st).after.current == -1
    decreases n
  {
    match n
    case UnaryNode(_, operand) => EmptyStackStaysEmpty(operand, st);
    case BinaryExpression(left, _, right) =>
      EmptyStackStaysEmpty(left, st);
      var l := CheckNode(left, st);
      if l.result.Ok? {
        EmptyStackStaysEmpty(right, l.after);
      }
    case VarDeclaration(_, _, e) => EmptyStackStaysEmpty(e, st);
    case VarAssignment(_, e) => EmptyStackStaysEmpty(e, st);
    case PrintStmt(e) => EmptyStackStaysEmpty(e, st);
    case _ =>
  }

  /**
   * The driver gives the checker a default-constructed, empty scope stack.
   * Then a top-level declaration never completes: the analysis ends with an
   * uncaught exit at the first declaration it reaches.
   */
  lemma {:induction false} EmptyStackDeclarationEnds(stmts: seq<Node>, st: SemState, k: nat)
    requires st.Valid() && st.envs == []
    requires k < |stmts| && stmts[k].VarDeclaration?
    ensures Analysis(stmts, st).Fail?
    decreases |stmts|
  {
    if stmts[0] == Null {
      EmptyStackDeclarationEnds(stmts[1..], st, k - 1);
    } else {
      EmptyStackStaysEmpty(stmts[0], st);
      var c := CheckNode(stmts[0], st);
      if k > 0 && c.result.Ok? {
        EmptyStackDeclarationEnds(stmts[1..], c.after, k - 1);
      } else if k == 0 {
        EmptyStackStaysEmpty(stmts[0].expression, st);
      }
    }
  }

  /** The analysis only appends to the error list it starts from. */
  lemma {:induction false} AnalysisOnlyAppends(stmts: seq<Node>, st: SemState)
    requires st.Valid()
    ensures Analysis(stmts, st).Ok? ==> st.errors <= Analysis(stmts, st).value.errors
    decreases |stmts|
  {
    if stmts != [] {
      if stmts[0] == Null {
        AnalysisOnlyAppends(stmts[1..], st);
      } else {
        CheckOnlyAppends(stmts[0], st);
        var c := CheckNode(stmts[0], st);
        if c.result.Ok? {
          AnalysisOnlyAppends(stmts[1..], c.after);
        }
      }
    }
  }

  // ---------------------------------------------------------------------
  // The checker object.

  class Semantic {
    var errors: seq<string>
    const envStack: EnvStack
    const functionMemory: FunctionMemory

    /** The checker takes over a scope stack and shares the function table, which it never reads. */
    constructor(envStack: EnvStack, functionMemory: FunctionMemory)
      ensures this.envStack == envStack && this.functionMemory == functionMemory && errors == []
    {
      this.envStack := envStack;
      this.functionMemory := functionMemory;
      errors := [];
    }

    predicate Valid()
      reads this, envStack
    {
      envStack.Valid()
    }

    /** The visit ended as `c` says: the same result, and the error list and scope stack of `c.after`. */
    predicate Reaches(r: Res<Any>, c: Checked)
      reads this, envStack
    {
      r == c.result && errors == c.after.errors && envStack.envs == c.after.envs && envStack.current == c.after.current
    }

    /** `Report`: appends one message. */
    method Report(error: string)
      modifies this
      ensures errors == old(errors) + [error]
    {
      errors := errors + [error];
    }

    /** `Analyse`: visits the non-null statements in order and returns the collected errors. */
    method Analyse(statements: seq<Node>) returns (r: Res<seq<string>>)
      requires Valid()
      modifies this, envStack
      ensures Valid()
      ensures var a := Analysis(statements, SemState(old(errors), old(envStack.envs), old(envStack.current)));
        (r.Ok? <==> a.Ok?) && (a.Fail? ==> r.abrupt == a.abrupt) &&
        (a.Ok? ==> r.value == errors == a.value.errors && envStack.envs == a.value.envs && envStack.current == a.value.current)
    {
      ghost var whole := Analysis(statements, SemState(errors, envStack.envs, envStack.current));
      for i := 0 to |statements|
        invariant Valid()
        invariant Analysis(statements[i..], SemState(errors, envStack.envs, envStack.current)) == whole
      {
        assert statements[i..][1..] == statements[i + 1..];
        if statements[i] == Null {
          continue;
        }
        var c := Accept(statements[i]);
        if c.Fail? {
          return Fail(c.abrupt);
        }
      }
      assert statements[|statements|..] == [];
      return Ok(errors);
    }

    /** `n->Accept(*this)`: the double dispatch to the visit of `n`'s node class. */
    method Accept(n: Node) returns (r: Res<Any>)
      requires Valid()
      modifies this, envStack
      ensures Valid()
      ensures Reaches(r, CheckNode(n, SemState(old(errors), old(envStack.envs), old(envStack.current))))
      decreases n, 1
    {
      match n
      case Null => r := Fail(NullDereference);
      case NumberNode(x) => r := Ok(NumberWitness(x));
      case StringNode(text) => r := Ok(Str(text));
      case BoolNode(_) => r := Ok(Bool(true));
      case IdentifierNode(_) => r := VisitIdentifier(n);
      case UnaryNode(_, _) => r := VisitUnary(n);
      case BinaryExpression(_, _, _) => r := VisitBinary(n);
      case VarDeclaration(_, _, _) => r := VisitDeclaration(n);
      case VarAssignment(_, _) => r := VisitAssignment(n);
      case PrintStmt(_) => r := VisitPrint(n);
      case IfStmt(_, _) => r := Ok(Empty);
      case FunctionCall(_, _) => r := Ok(Empty);
      case BlockStmt(_) => r := Ok(Empty);
    }

    /** `VisitIdentifierNode`: the bound value, or a report and nothing. */
    method VisitIdentifier(n: Node) returns (r: Res<Any>)
      requires Valid() && n.IdentifierNode?
      modifies this, envStack
      ensures Valid()
      ensures Reaches(r, CheckNode(n, SemState(old(errors), old(envStack.envs), old(envStack.current))))
    {
      var found := envStack.GetVariable(n.identifier);
      if found.Fail? {
        Report(found.abrupt.msg);
        return Ok(Empty);
      }
      r := Ok(found.value.0.value);
    }

    /** `VisitUnaryNode`: the operand is visited for its reports; the result is empty. */
    method VisitUnary(n: Node) returns (r: Res<Any>)
      requires Valid() && n.UnaryNode?
      modifies this, envStack
      ensures Valid()
      ensures Reaches(r, CheckNode(n, SemState(old(errors), old(envStack.envs), old(envStack.current))))
      decreases n, 0
    {
      var operand := Accept(n.operand);
      if operand.Fail? {
        return operand;
      }
      r := Ok(Empty);
    }

    /** `VisitBinaryExpression`: left, then right, then the width of the pair. */
    method VisitBinary(n: Node) returns (r: Res<Any>)
      requires Valid() && n.BinaryExpression?
      modifies this, envStack
      ensures Valid()
      ensures Reaches(r, CheckNode(n, SemState(old(errors), old(envStack.envs), old(envStack.current))))
      decreases n, 0
    {
      var left := Accept(n.left);
      if left.Fail? {
        return left;
      }
      var right := Accept(n.right);
      if right.Fail? {
        return right;
      }
      r := Ok(BinaryWitness(n.op, left.value, right.value));
    }

    /** `VisitPrintStmt`: the expression is visited; the result is empty. */
    method VisitPrint(n: Node) returns (r: Res<Any>)
      requires Valid() && n.PrintStmt?
      modifies this, envStack
      ensures Valid()
      ensures Reaches(r, CheckNode(n, SemState(old(errors), old(envStack.envs), old(envStack.current))))
      decreases n, 0
    {
      var e := Accept(n.expression);
      if e.Fail? {
        return e;
      }
      r := Ok(Empty);
    }

    /**
     * `VisitVarDeclarationStmt`: the initializer's witness becomes the
     * variable's value, which `EnvStack::Add` declares.  The handler around
     * `Add` never fires: `Add` catches the duplicate itself, and what
     * `GetRef` throws is a pointer.
     */
    method VisitDeclaration(n: Node) returns (r: Res<Any>)
      requires Valid() && n.VarDeclaration?
      modifies this, envStack
      ensures Valid()
      ensures Reaches(r, CheckNode(n, SemState(old(errors), old(envStack.envs), old(envStack.current))))
      decreases n, 0
    {
      var value := Accept(n.expression);
      if value.Fail? {
        return value;
      }
      var added := envStack.Add(Variable(FromToken(n.variableType), n.identifier, value.value));
      if added.Fail? {
        return Fail(added.abrupt);
      }
      r := Ok(Empty);
    }

    /** `VisitVarAssignmentStmt`: the value is visited, then the target's declared type is looked up. */
    method VisitAssignment(n: Node) returns (r: Res<Any>)
      requires Valid() && n.VarAssignment?
      modifies this, envStack
      ensures Valid()
      ensures Reaches(r, CheckNode(n, SemState(old(errors), old(envStack.envs), old(envStack.current))))
      decreases n, 0
    {
      var value := Accept(n.expression);
      if value.Fail? {
        return value;
      }
      var found := envStack.GetVariable(n.identifier);
      if found.Fail? {
        Report(found.abrupt.msg);
        return Ok(Empty);
      }
      r := Ok(TypeTag(found.value.0.dtType));
    }
  }
}
