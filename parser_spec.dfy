/**
 * The expression grammar of parser.cpp as functions over the token
 * sequence.  Each function takes the position of its first token and
 * yields the node with the position after it, the way the parser's methods
 * read tokens at `index` and leave `index` after what they consumed.
 *
 * Two expression grammars live side by side in the parser: precedence
 * climbing (`ParseBinaryExpression`), used for every expression that does
 * not start with an identifier or `(`, and the term/factor/unary ladder
 * (`ParseTerm`), reached from an identifier that is not assigned to.
 * Number literals depend on the scopes known at parse time, so every
 * function also takes the scope stack, which none of them changes.
 */
module ParserSpec {
  import opened Outcomes
  import opened Tokens
  import opened Values
  import opened Ast
  import opened Variables
  import opened Environments
  import opened EnvStacks
  import opened Lexing

  /** A parsed node and the position of the first token after it. */
  datatype Parsed = Parsed(node: Node, next: nat)

  /**
   * `LookAhead`: the token at an absolute position, or the last token when
   * the position is outside the sequence.  A negative position is compared
   * as an unsigned size there, so it too gives the last token.
   */
  function TokenAt(ts: seq<SyntaxToken>, j: int): (t: SyntaxToken)
    requires |ts| > 0
    ensures 0 <= j < |ts| ==> t == ts[j]
    ensures !(0 <= j < |ts|) ==> t == ts[|ts| - 1]
  {
    if 0 <= j < |ts| then ts[j] else ts[|ts| - 1]
  }

  /** The alternative of `NUMBER_DT` a literal takes when assigned to a variable of type `dt`. */
  function LiteralKind(dt: DataType): NumKind {
    match dt
    case DtShort => KShort
    case DtLong => KLong
    case DtFloat => KFloat
    case DtDouble => KDouble
    case _ => KInt
  }

  /**
   * A number literal read for a variable of type `dt`: `stoi` narrowed to
   * `short`, `stoi`, `stol`, `stof`, `stod`, and `stoi` for every other
   * type.  The integer conversions fail as `stoi` does, the floating ones
   * as `StoFloat` does.
   */
  function TypedLiteral(dt: DataType, text: string): (r: Res<Number>)
    ensures r.Ok? ==> KindOf(r.value) == LiteralKind(dt) && WellFormed(r.value)
    ensures LiteralKind(dt).IsIntegral() ==> (r.Ok? <==> StoInt(text).Ok?)
    ensures LiteralKind(dt).IsIntegral() && r.Fail? ==> r.abrupt == StoInt(text).abrupt
    ensures !LiteralKind(dt).IsIntegral() ==> (r.Ok? <==> StoFloat(LiteralKind(dt), text).Ok?)
    ensures !LiteralKind(dt).IsIntegral() && r.Ok? ==> r.value.f == FLit(text)
    ensures !LiteralKind(dt).IsIntegral() && r.Fail? ==> r.abrupt == StoFloat(LiteralKind(dt), text).abrupt
    ensures r.Ok? && LiteralKind(dt).IsIntegral() ==> r.value.v == Wrap(LiteralKind(dt), StoInt(text).value)
  {
    match dt
    case DtShort =>
      var v :- StoInt(text);
      Ok(Short(Wrap(KShort, v)))
    case DtLong =>
      var v :- StoInt(text);
      Ok(Long(v))
    case DtFloat =>
      var f :- StoFloat(KFloat, text);
      Ok(Float(f))
    case DtDouble =>
      var f :- StoFloat(KDouble, text);
      Ok(Double(f))
    case _ =>
      var v :- StoInt(text);
      Ok(Int(v))
  }

  /** `(short)stoi` keeps the low 16 bits: a `short` literal of 40000 holds -25536. */
  lemma ShortLiteralWraps(text: string)
    requires StoInt(text) == Ok(40000)
    ensures TypedLiteral(DtShort, text) == Ok(Short(-25536))
  {
  }

  /**
   * `float f = 400000000000000000000000000000000000000;` reads a value past
   * FLT_MAX: `stof` throws `std::out_of_range`, which nothing catches.
   */
  lemma FloatLiteralOutOfRange(text: string)
    requires DecimalLiteral(text) && DecimalValue(IntegerPart(text)) == 4 * Pow10(38)
    ensures TypedLiteral(DtFloat, text) == Fail(Crash("stof/stod: out of range"))
  {
    FloatLiteralTooLarge(text);
  }

  /** A number literal anywhere else: a `double` when it holds a dot, an `int` otherwise. */
  function PlainLiteral(text: string): (r: Res<Number>)
    ensures '.' in text ==> (r.Ok? <==> StoFloat(KDouble, text).Ok?)
    ensures '.' in text && r.Ok? ==> r.value == Double(FLit(text))
    ensures '.' in text && r.Fail? ==> r.abrupt == StoFloat(KDouble, text).abrupt
    ensures '.' !in text ==> (r.Ok? <==> StoInt(text).Ok?)
    ensures '.' !in text && r.Ok? ==> r.value == Int(StoInt(text).value)
    ensures '.' !in text && r.Fail? ==> r.abrupt == StoInt(text).abrupt
  {
    if '.' in text then
      var f :- StoFloat(KDouble, text);
      Ok(Double(f))
    else
      var v :- StoInt(text);
      Ok(Int(v))
  }

  /** The declared type of the innermost binding of `id`, as `EnvStack::Get` finds it from the top. */
  function DeclaredType(envs: seq<Scope>, id: string): (r: Option<DataType>)
  {
    match Innermost(envs, |envs| - 1, id)
    case None => None
    case Some(s) => Some(envs[s][id].dtType)
  }

  /** Whether a number literal at `i` is the right-hand side of `identifier =`. */
  predicate AssignedLiteral(ts: seq<SyntaxToken>, i: nat)
    requires i < |ts|
  {
    ts[i].kind == NumberLiteral && TokenAt(ts, i - 1).kind == Equal && TokenAt(ts, i - 2).kind == Identifier
  }



  /** The type keywords in the order `FindVarType` tries them. */
  function TypeKeywordAt(n: nat): (k: TokenKind)
    requires n < 6
    ensures k.IsTypeKeyword()
  {
    if n == 0 then BoolType
    else if n == 1 then ShortType
    else if n == 2 then IntType
    else if n == 3 then LongType
    else if n == 4 then FloatType
    else DoubleType
  }

  /** The position of a type keyword in that order; 6 for every other kind. */
  function TypeRank(k: TokenKind): (n: nat)
    ensures n <= 6
    ensures n < 6 <==> k.IsTypeKeyword()
    ensures n < 6 ==> TypeKeywordAt(n) == k
  {
    if k == BoolType then 0 else if k == ShortType then 1 else if k == IntType then 2
    else if k == LongType then 3 else if k == FloatType then 4 else if k == DoubleType then 5
    else 6
  }

  /**
   * Where `FindVarType` leaves the cursor when its attempts from the `n`-th
   * on start at `i`: it consumes the longest run of type keywords whose
   * positions in the order rise strictly, the first at least `n`.
   */
  function TypeEnd(ts: seq<SyntaxToken>, i: nat, n: nat): (e: nat)
    requires SentinelLast(ts) && i < |ts|
    ensures i <= e < |ts|
    decreases 6 - n
  {
    var rank := TypeRank(ts[i].kind);
    if n <= rank < 6 then TypeEnd(ts, i + 1, rank + 1) else i
  }

  /**
   * The `n`-th attempt on its own: the `n`-th type keyword is consumed when
   * it is at the cursor, and the run goes on from the next attempt either way.
   */
  lemma TypeAttemptStep(ts: seq<SyntaxToken>, i: nat, n: nat)
    requires SentinelLast(ts) && i < |ts| && n < 6
    ensures ts[i].kind == TypeKeywordAt(n) ==> TypeEnd(ts, i, n) == TypeEnd(ts, i + 1, n + 1)
    ensures ts[i].kind != TypeKeywordAt(n) ==> TypeEnd(ts, i, n) == TypeEnd(ts, i, n + 1)
  {
  }

  /** The last token a run consumes is a type keyword. */
  lemma {:induction false} TypeEndLast(ts: seq<SyntaxToken>, i: nat, n: nat)
    requires SentinelLast(ts) && i < |ts|
    ensures TypeEnd(ts, i, n) > i ==> TypeRank(ts[TypeEnd(ts, i, n) - 1].kind) < 6
    decreases 6 - n
  {
    var rank := TypeRank(ts[i].kind);
    if n <= rank < 6 {
      assert TypeEnd(ts, i, n) == TypeEnd(ts, i + 1, rank + 1);
      TypeEndLast(ts, i + 1, rank + 1);
    }
  }

  /**
   * A whole `FindVarType`: something is consumed exactly when the cursor is
   * on a type keyword, the last token consumed is a type keyword, and a
   * keyword not followed by another is consumed alone.
   */
  lemma TypeEndFacts(ts: seq<SyntaxToken>, i: nat)
    requires SentinelLast(ts) && i < |ts|
    ensures TypeEnd(ts, i, 0) > i <==> ts[i].kind.IsTypeKeyword()
    ensures TypeEnd(ts, i, 0) > i ==> ts[TypeEnd(ts, i, 0) - 1].kind.IsTypeKeyword()
    ensures ts[i].kind.IsTypeKeyword() && !TokenAt(ts, i + 1).kind.IsTypeKeyword() ==> TypeEnd(ts, i, 0) == i + 1
  {
    TypeEndLast(ts, i, 0);
    var rank := TypeRank(ts[i].kind);
    if rank < 6 {
      assert TypeEnd(ts, i, 0) == TypeEnd(ts, i + 1, rank + 1);
      assert TokenAt(ts, i + 1) == ts[i + 1];
    }
  }

  /** `Climb` is its operand followed by the loop. */
  lemma ClimbSplit(ts: seq<SyntaxToken>, envs: seq<Scope>, i: nat, parent: int)
    requires SentinelLast(ts) && i < |ts|
    ensures var o := ClimbOperand(ts, envs, i, parent);
      Climb(ts, envs, i, parent) ==
        if o.Fail? then Fail(o.abrupt) else ClimbLoop(ts, envs, o.value.next, o.value.node, parent)
  {
  }

  /** The two cases of `ClimbOperand`: a prefix operator at a level of at least `parent`, or a primary. */
  lemma ClimbOperandCases(ts: seq<SyntaxToken>, envs: seq<Scope>, i: nat, parent: int)
    requires SentinelLast(ts) && i < |ts|
    ensures var u := UnaryPrecedence(ts[i].kind);
      u != 0 && u >= parent ==>
        i + 1 < |ts| &&
        (var c := Climb(ts, envs, i + 1, u);
         ClimbOperand(ts, envs, i, parent) ==
           if c.Fail? then Fail(c.abrupt) else Ok(Parsed(UnaryNode(ts[i].kind, c.value.node), c.value.next)))
    ensures var u := UnaryPrecedence(ts[i].kind);
      !(u != 0 && u >= parent) ==> ClimbOperand(ts, envs, i, parent) == Primary(ts, envs, i)
  {
  }

  /** `ClimbLoop` stops, consuming nothing, at a token that is no operator or binds no tighter than `parent`. */
  lemma ClimbLoopStops(ts: seq<SyntaxToken>, envs: seq<Scope>, j: nat, left: Node, parent: int)
    requires SentinelLast(ts) && j < |ts|
    requires BinaryPrecedence(ts[j].kind) == 0 || BinaryPrecedence(ts[j].kind) <= parent
    ensures ClimbLoop(ts, envs, j, left, parent) == Ok(Parsed(left, j))
  {
  }

  /** One round of `ClimbLoop`: an operator binding tighter than `parent` and its right operand. */
  lemma ClimbLoopStep(ts: seq<SyntaxToken>, envs: seq<Scope>, j: nat, left: Node, parent: int)
    requires SentinelLast(ts) && j < |ts|
    requires BinaryPrecedence(ts[j].kind) != 0 && BinaryPrecedence(ts[j].kind) > parent
    ensures j + 1 < |ts|
    ensures var c := Climb(ts, envs, j + 1, BinaryPrecedence(ts[j].kind));
      ClimbLoop(ts, envs, j, left, parent) ==
        if c.Fail? then Fail(c.abrupt)
        else ClimbLoop(ts, envs, c.value.next, BinaryExpression(left, ts[j].kind, c.value.node), parent)
  {
  }

  // ----- the term/factor/unary ladder: ParseTerm -----

  predicate IsTermOperator(k: TokenKind) {
    k == Plus || k == Minus || k == EqualEqual || k == AmpersandAmpersand || k == BangEqual || k == PipePipe
  }

  predicate IsFactorOperator(k: TokenKind) {
    k == Star || k == Slash
  }

  /** The number-literal branches of `ParsePrimary`: the cursor is on a number literal. */
  function NumberLiteralAt(ts: seq<SyntaxToken>, envs: seq<Scope>, i: nat): (r: Res<Parsed>)
    requires SentinelLast(ts) && i < |ts| && ts[i].kind == NumberLiteral
    ensures r.Ok? ==> r.value.next == i + 1 < |ts| && r.value.node.NumberNode?
  {
    var t := ts[i];
    if AssignedLiteral(ts, i) then
      var id := TokenAt(ts, i - 2).value;
      match DeclaredType(envs, id)
      case None => Fail(InvalidArgument(VariableNotFound(id)))
      case Some(dt) =>
        (match TypedLiteral(dt, t.value)
         case Fail(a) => Fail(a)
         case Ok(n) => Ok(Parsed(NumberNode(n), i + 1)))
    else
      (match PlainLiteral(t.value)
       case Fail(a) => Fail(a)
       case Ok(n) => Ok(Parsed(NumberNode(n), i + 1)))
  }

  /** `DeclaredType` reads the binding of the highest scope that holds the name. */
  lemma DeclaredTypeIsInnermost(envs: seq<Scope>, id: string, s: nat)
    requires s < |envs| && id in envs[s]
    requires forall j :: s < j < |envs| ==> id !in envs[j]
    ensures DeclaredType(envs, id) == Some(envs[s][id].dtType)
  {
    var found := Innermost(envs, |envs| - 1, id);
    assert found.Some? && found.value >= s;
  }

  /**
   * The width rule of a number literal: after `identifier =` it is read
   * for the declared type of that identifier, and fails when no scope
   * declares it; anywhere else it is an `int`, or a `double` when it holds
   * a dot.
   */
  lemma NumberLiteralWidth(ts: seq<SyntaxToken>, envs: seq<Scope>, i: nat)
    requires SentinelLast(ts) && i < |ts| && ts[i].kind == NumberLiteral
    ensures var r := NumberLiteralAt(ts, envs, i); var id := TokenAt(ts, i - 2).value;
      forall dt :: AssignedLiteral(ts, i) && DeclaredType(envs, id) == Some(dt) ==>
        var n := TypedLiteral(dt, ts[i].value);
        (r.Ok? <==> n.Ok?) && (r.Ok? ==> r.value.node == NumberNode(n.value)) && (r.Fail? ==> r.abrupt == n.abrupt)
    ensures var id := TokenAt(ts, i - 2).value;
      AssignedLiteral(ts, i) && (forall j :: 0 <= j < |envs| ==> id !in envs[j]) ==>
        NumberLiteralAt(ts, envs, i) == Fail(InvalidArgument(VariableNotFound(id)))
    ensures var r := NumberLiteralAt(ts, envs, i); var n := PlainLiteral(ts[i].value);
      !AssignedLiteral(ts, i) ==>
        (r.Ok? <==> n.Ok?) && (r.Ok? ==> r.value.node == NumberNode(n.value)) && (r.Fail? ==> r.abrupt == n.abrupt)
  {
    var id := TokenAt(ts, i - 2).value;
    if AssignedLiteral(ts, i) && (forall j :: 0 <= j < |envs| ==> id !in envs[j]) {
      InnermostFindsAny(envs, |envs| - 1, id);
    }
  }

  /**
   * `ParsePrimary`: a literal or an identifier, consuming one token, or
   * nothing at all.
   */
  function Primary(ts: seq<SyntaxToken>, envs: seq<Scope>, i: nat): (r: Res<Parsed>)
    requires SentinelLast(ts) && i < |ts|
    ensures r.Ok? ==> i <= r.value.next < |ts| && (r.value.node == Null <==> r.value.next == i)
    ensures r.Fail? ==> ts[i].kind == NumberLiteral
  {
    var t := ts[i];
    if t.kind == NumberLiteral then NumberLiteralAt(ts, envs, i)
    else if t.kind == StringLiteral then Ok(Parsed(StringNode(t.value), i + 1))
    else if t.kind == Identifier then Ok(Parsed(IdentifierNode(t.value), i + 1))
    else if t.kind == False then Ok(Parsed(BoolNode(false), i + 1))
    else if t.kind == True then Ok(Parsed(BoolNode(true), i + 1))
    else Ok(Parsed(Null, i))
  }

  /**
   * The nonterminals of the expression grammar.  A `...Rest` rule is the
   * `while` loop of its method, with the operand built so far.
   */
  datatype Rule =
    | UnaryRule
    | FactorRule | FactorRest(left: Node)
    | TermRule | TermRest(left: Node)
    | ClimbRule(parent: int) | ClimbOperandRule(parent: int) | ClimbRest(left: Node, parent: int)
  {
    predicate IsRest() { FactorRest? || TermRest? || ClimbRest? }
  }

  /** The order in which the rules call one another at the same position. */
  function RuleRank(g: Rule): nat {
    match g
    case UnaryRule => 0
    case FactorRest(_) => 1
    case FactorRule => 2
    case TermRest(_) => 3
    case TermRule => 4
    case ClimbOperandRule(_) => 0
    case ClimbRest(_, _) => 0
    case ClimbRule(_) => 1
  }

  /**
   * The expression grammar as one recursive definition over the rule being
   * parsed at position `i`, the way the parser's expression methods call
   * one another.
   */
  function Expr(g: Rule, ts: seq<SyntaxToken>, envs: seq<Scope>, i: nat): (r: Res<Parsed>)
    requires SentinelLast(ts) && i < |ts|
    ensures r.Ok? ==> i <= r.value.next < |ts|
    ensures r.Ok? && !g.IsRest() ==> (r.value.node == Null <==> r.value.next == i)
    ensures r.Ok? && g.IsRest() && r.value.next == i ==> r.value.node == g.left
    ensures r.Ok? && g.IsRest() && r.value.next != i ==> r.value.node.BinaryExpression?
    decreases |ts| - i, RuleRank(g)
  {
    match g
    case UnaryRule =>
      var k := ts[i].kind;
      if k == Minus || k == Bang then
        (match Expr(UnaryRule, ts, envs, i + 1)
         case Fail(a) => Fail(a)
         case Ok(operand) => Ok(Parsed(UnaryNode(k, operand.node), operand.next)))
      else Primary(ts, envs, i)
    case FactorRule =>
      (match Expr(UnaryRule, ts, envs, i)
       case Fail(a) => Fail(a)
       case Ok(first) => Expr(FactorRest(first.node), ts, envs, first.next))
    case FactorRest(left) =>
      var k := ts[i].kind;
      if IsFactorOperator(k) then
        (match Expr(UnaryRule, ts, envs, i + 1)
         case Fail(a) => Fail(a)
         case Ok(right) => Expr(FactorRest(BinaryExpression(left, k, right.node)), ts, envs, right.next))
      else Ok(Parsed(left, i))
    case TermRule =>
      (match Expr(FactorRule, ts, envs, i)
       case Fail(a) => Fail(a)
       case Ok(first) => Expr(TermRest(first.node), ts, envs, first.next))
    case TermRest(left) =>
      var k := ts[i].kind;
      if IsTermOperator(k) then
        (match Expr(FactorRule, ts, envs, i + 1)
         case Fail(a) => Fail(a)
         case Ok(right) => Expr(TermRest(BinaryExpression(left, k, right.node)), ts, envs, right.next))
      else Ok(Parsed(left, i))
    case ClimbRule(parent) =>
      (match Expr(ClimbOperandRule(parent), ts, envs, i)
       case Fail(a) => Fail(a)
       case Ok(first) => Expr(ClimbRest(first.node, parent), ts, envs, first.next))
    case ClimbOperandRule(parent) =>
      var u := UnaryPrecedence(ts[i].kind);
      if u != 0 && u >= parent then
        (match Expr(ClimbRule(u), ts, envs, i + 1)
         case Fail(a) => Fail(a)
         case Ok(operand) => Ok(Parsed(UnaryNode(ts[i].kind, operand.node), operand.next)))
      else Primary(ts, envs, i)
    case ClimbRest(left, parent) =>
      var prec := BinaryPrecedence(ts[i].kind);
      if prec == 0 || prec <= parent then Ok(Parsed(left, i))
      else
        (match Expr(ClimbRule(prec), ts, envs, i + 1)
         case Fail(a) => Fail(a)
         case Ok(right) => Expr(ClimbRest(BinaryExpression(left, ts[i].kind, right.node), parent), ts, envs, right.next))
  }


  // ----- precedence climbing: ParseBinaryExpression -----

  /**
   * `ParseBinaryExpression(parent)`: an operand, then every infix operator
   * that binds tighter than `parent`, each with a right operand climbed at
   * the operator's own level.
   */
  function Climb(ts: seq<SyntaxToken>, envs: seq<Scope>, i: nat, parent: int): Res<Parsed>
    requires SentinelLast(ts) && i < |ts|
  {
    Expr(ClimbRule(parent), ts, envs, i)
  }

  /**
   * The operand at the start of `ParseBinaryExpression`: a prefix operator
   * whose level is at least `parent` applies to everything climbed at its
   * level after it; otherwise a primary.
   */
  function ClimbOperand(ts: seq<SyntaxToken>, envs: seq<Scope>, i: nat, parent: int): Res<Parsed>
    requires SentinelLast(ts) && i < |ts|
  {
    Expr(ClimbOperandRule(parent), ts, envs, i)
  }

  /** The `while (true)` loop of `ParseBinaryExpression`, with `left` built so far and the cursor at `j`. */
  function ClimbLoop(ts: seq<SyntaxToken>, envs: seq<Scope>, j: nat, left: Node, parent: int): Res<Parsed>
    requires SentinelLast(ts) && j < |ts|
  {
    Expr(ClimbRest(left, parent), ts, envs, j)
  }

  /** `ParseUnary`: any number of `-` and `!` in front of a primary. */
  function Unary(ts: seq<SyntaxToken>, envs: seq<Scope>, i: nat): Res<Parsed>
    requires SentinelLast(ts) && i < |ts|
  {
    Expr(UnaryRule, ts, envs, i)
  }

  /** `ParseFactor`: unaries joined left to right by `*` and `/`. */
  function Factor(ts: seq<SyntaxToken>, envs: seq<Scope>, i: nat): Res<Parsed>
    requires SentinelLast(ts) && i < |ts|
  {
    Expr(FactorRule, ts, envs, i)
  }

  /** The loop of `ParseFactor` with `left` built so far and the cursor at `j`. */
  function FactorLoop(ts: seq<SyntaxToken>, envs: seq<Scope>, j: nat, left: Node): Res<Parsed>
    requires SentinelLast(ts) && j < |ts|
  {
    Expr(FactorRest(left), ts, envs, j)
  }

  /** `ParseTerm`: factors joined left to right by `+ - == && != ||`. */
  function Term(ts: seq<SyntaxToken>, envs: seq<Scope>, i: nat): Res<Parsed>
    requires SentinelLast(ts) && i < |ts|
  {
    Expr(TermRule, ts, envs, i)
  }

  /** The loop of `ParseTerm` with `left` built so far and the cursor at `j`. */
  function TermLoop(ts: seq<SyntaxToken>, envs: seq<Scope>, j: nat, left: Node): Res<Parsed>
    requires SentinelLast(ts) && j < |ts|
  {
    Expr(TermRest(left), ts, envs, j)
  }

  /** Without a prefix operator, `Unary` is `Primary`. */
  lemma UnaryIsPrimary(ts: seq<SyntaxToken>, envs: seq<Scope>, i: nat)
    requires SentinelLast(ts) && i < |ts| && ts[i].kind != Minus && ts[i].kind != Bang
    ensures Unary(ts, envs, i) == Primary(ts, envs, i)
  {
  }

  /** A prefix `-` or `!` applies to the unary after it. */
  lemma UnaryPrefix(ts: seq<SyntaxToken>, envs: seq<Scope>, i: nat)
    requires SentinelLast(ts) && i < |ts| && (ts[i].kind == Minus || ts[i].kind == Bang)
    ensures i + 1 < |ts|
    ensures var u := Unary(ts, envs, i + 1);
      Unary(ts, envs, i) ==
        if u.Fail? then Fail(u.abrupt) else Ok(Parsed(UnaryNode(ts[i].kind, u.value.node), u.value.next))
  {
  }

  /** One round of `TermLoop`: the operator at `j` and the factor after it. */
  lemma TermLoopStep(ts: seq<SyntaxToken>, envs: seq<Scope>, j: nat, left: Node)
    requires SentinelLast(ts) && j < |ts| && IsTermOperator(ts[j].kind)
    ensures j + 1 < |ts|
    ensures var f := Factor(ts, envs, j + 1);
      TermLoop(ts, envs, j, left) ==
        if f.Fail? then Fail(f.abrupt)
        else TermLoop(ts, envs, f.value.next, BinaryExpression(left, ts[j].kind, f.value.node))
  {
  }

  lemma FactorLoopStep(ts: seq<SyntaxToken>, envs: seq<Scope>, j: nat, left: Node)
    requires SentinelLast(ts) && j < |ts| && IsFactorOperator(ts[j].kind)
    ensures j + 1 < |ts|
    ensures var u := Unary(ts, envs, j + 1);
      FactorLoop(ts, envs, j, left) ==
        if u.Fail? then Fail(u.abrupt)
        else FactorLoop(ts, envs, u.value.next, BinaryExpression(left, ts[j].kind, u.value.node))
  {
  }
}
