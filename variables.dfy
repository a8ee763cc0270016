/**
 * variable.hpp and variable.cpp: the declared-type enumeration, the contents
 * of a `std::any` slot, and the two records stored in scopes and in the
 * function table.
 */
module Variables {
  import opened Tokens
  import opened Values
  import opened Ast

  datatype DataType = DtBool | DtShort | DtInt | DtLong | DtFloat | DtDouble | DtNotValid

  /**
   * What a `std::any` holds.  `Num` is a whole `NUMBER_DT` variant (what the
   * interpreter computes); `Raw` is a bare `short`/`int`/.../`double` (what
   * the semantic checker computes); `TypeTag` is a `DataType` value.
   */
  datatype Any =
    | Empty
    | Num(n: Number)
    | Raw(r: Number)
    | Bool(b: bool)
    | Str(s: string)
    | NullPtr
    | TypeTag(dt: DataType)

  /** A declared variable: its type, its name and its current value. */
  datatype Variable = Variable(dtType: DataType, identifier: string, value: Any)

  /** A declared function: return type, name, body block and formal parameters. */
  datatype FuncVariable = FuncVariable(returnType: DataType, identifier: string, blockStmt: Node, parameters: seq<Variable>)

  /** A default-constructed `Variable`. */
  const DefaultVariable: Variable := Variable(DtNotValid, "", Empty)

  /** A default-constructed `FuncVariable`. */
  const DefaultFuncVariable: FuncVariable := FuncVariable(DtNotValid, "", Null, [])

  /** The declared type named by a type keyword; every other token is not a type. */
  function FromToken(t: TokenKind): (dt: DataType)
    ensures dt != DtNotValid <==> t.IsTypeKeyword()
  {
    if t == BoolType then DtBool
    else if t == ShortType then DtShort
    else if t == IntType then DtInt
    else if t == LongType then DtLong
    else if t == FloatType then DtFloat
    else if t == DoubleType then DtDouble
    else DtNotValid
  }

  /** The six type keywords map to six different types. */
  lemma FromTokenInjective(a: TokenKind, b: TokenKind)
    requires a.IsTypeKeyword() && b.IsTypeKeyword() && a != b
    ensures FromToken(a) != FromToken(b)
  {
  }

  /** The keyword's spelling names the type: `bool` is `DtBool`, and so on. */
  lemma FromTokenBySpelling(t: TokenKind)
    requires t.IsTypeKeyword()
    ensures DisplayToken(t) == "bool" <==> FromToken(t) == DtBool
    ensures DisplayToken(t) == "short" <==> FromToken(t) == DtShort
    ensures DisplayToken(t) == "int" <==> FromToken(t) == DtInt
    ensures DisplayToken(t) == "long" <==> FromToken(t) == DtLong
    ensures DisplayToken(t) == "float" <==> FromToken(t) == DtFloat
    ensures DisplayToken(t) == "double" <==> FromToken(t) == DtDouble
  {
  }

  /** Default-constructed records carry no valid type. */
  lemma DefaultsAreNotValid()
    ensures DefaultVariable.dtType == DtNotValid
    ensures DefaultFuncVariable.returnType == DtNotValid
  {
  }
}
