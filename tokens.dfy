/**
 * Token kinds, the token record the lexer produces, and the lookup tables of
 * token.cpp: the diagnostic names, the source spellings and the operator
 * precedences.
 */
module Tokens {

  /**
   * The kinds of token.hpp.  `Token_t` is a plain C++ enumeration, so a kind
   * is its ordinal: the constants below number the enumerators in
   * declaration order, from `NUMBER_LITERAL_TOKEN` (0) to
   * `END_OF_FILE_TOKEN` (38).
   */
  newtype TokenKind = k: int | 0 <= k < 39
  {
    /** The two kinds `LexAll` stops at. */
    predicate IsSentinel() {
      this == BadToken || this == EndOfFile
    }

    /** The six type keywords. */
    predicate IsTypeKeyword() {
      this == BoolType || this == ShortType || this == IntType || this == LongType || this == FloatType || this == DoubleType
    }
  }

  const NumberLiteral: TokenKind := 0
  const StringLiteral: TokenKind := 1
  const Identifier: TokenKind := 2
  const False: TokenKind := 3
  const True: TokenKind := 4
  const Plus: TokenKind := 5
  const Minus: TokenKind := 6
  const Star: TokenKind := 7
  const Slash: TokenKind := 8
  const PlusPlus: TokenKind := 9
  const TriplePlus: TokenKind := 10
  const MinusMinus: TokenKind := 11
  const PlusEqual: TokenKind := 12
  const MinusEqual: TokenKind := 13
  const StarEqual: TokenKind := 14
  const SlashEqual: TokenKind := 15
  const Equal: TokenKind := 16
  const Bang: TokenKind := 17
  const EqualEqual: TokenKind := 18
  const BangEqual: TokenKind := 19
  const AmpersandAmpersand: TokenKind := 20
  const PipePipe: TokenKind := 21
  const Comma: TokenKind := 22
  const OpenParen: TokenKind := 23
  const CloseParen: TokenKind := 24
  const OpenCurly: TokenKind := 25
  const CloseCurly: TokenKind := 26
  const Semicolon: TokenKind := 27
  const BoolType: TokenKind := 28
  const ShortType: TokenKind := 29
  const IntType: TokenKind := 30
  const LongType: TokenKind := 31
  const FloatType: TokenKind := 32
  const DoubleType: TokenKind := 33
  const PrintKw: TokenKind := 34
  const IfKw: TokenKind := 35
  const ReturnKw: TokenKind := 36
  const BadToken: TokenKind := 37
  const EndOfFile: TokenKind := 38

  /** C++ `size_t` on a 64-bit target. */
  const SizeModulus: int := 0x1_0000_0000_0000_0000

  /** A signed value stored into a `size_t` field wraps modulo 2^64. */
  function ToSize(x: int): (s: nat)
    ensures s < SizeModulus
    ensures 0 <= x < SizeModulus ==> s == x
    ensures x == -1 ==> s == SizeModulus - 1
  {
    x % SizeModulus
  }

  /**
   * A `SyntaxToken`.  The constructor of syntaxtoken.cpp takes its arguments
   * in the order (kind, value, pos, row, len); `pos` and `len` are `size_t`.
   */
  datatype SyntaxToken = SyntaxToken(kind: TokenKind, value: string, pos: nat, row: nat, len: nat)

  /** The diagnostic name of a token, "Invalid Token" for unlisted kinds. */
  function TokenName(t: TokenKind): string
  {
    if t == NumberLiteral then "Number Token"
    else if t == StringLiteral then "String Token"
    else if t == Plus then "Plus Token"
    else if t == Minus then "Minus Token"
    else if t == Star then "Star Token"
    else if t == Slash then "Slash Token"
    else if t == Equal then "Equal Token"
    else if t == EqualEqual then "Equal Equal Token"
    else if t == Semicolon then "Semicolon Token"
    else if t == BadToken then "Bad Token"
    else if t == EndOfFile then "End Of File Token"
    else "Invalid Token"
  }

  /** The kinds `TokenName` has an entry for. */
  predicate IsNamed(t: TokenKind) {
    t in {NumberLiteral, StringLiteral, Plus, Minus, Star, Slash, Equal, EqualEqual, Semicolon, BadToken, EndOfFile}
  }

  /** The kinds `DisplayToken` has a source spelling for. */
  predicate IsSpelled(t: TokenKind) {
    t in {BoolType, ShortType, IntType, LongType, FloatType, DoubleType,
          Equal, Bang, EqualEqual, BangEqual, AmpersandAmpersand, PipePipe, Semicolon,
          PrintKw, False, True, IfKw, ReturnKw}
  }

  /** The source spelling of a keyword or operator, or a "not found" text. */
  function DisplayToken(t: TokenKind): string
  {
    if t == BoolType then "bool"
    else if t == ShortType then "short"
    else if t == IntType then "int"
    else if t == LongType then "long"
    else if t == FloatType then "float"
    else if t == DoubleType then "double"
    else if t == Equal then "="
    else if t == Bang then "!"
    else if t == EqualEqual then "=="
    else if t == BangEqual then "!="
    else if t == AmpersandAmpersand then "&&"
    else if t == PipePipe then "||"
    else if t == Semicolon then ";"
    else if t == PrintKw then "print"
    else if t == False then "false"
    else if t == True then "true"
    else if t == IfKw then "if"
    else if t == ReturnKw then "return"
    else TokenName(t) + " not found"
  }

  /** Precedence of a prefix operator; 0 means "not a prefix operator". */
  function UnaryPrecedence(t: TokenKind): nat
  {
    if t == Plus || t == Minus then 1 else 0
  }

  /** Precedence of an infix operator; 0 means "not an infix operator". */
  function BinaryPrecedence(t: TokenKind): nat
  {
    if t == EqualEqual || t == BangEqual || t == AmpersandAmpersand || t == PipePipe then 2
    else if t == Star || t == Slash then 4
    else if t == Plus || t == Minus then 6
    else 0
  }

  /** Only `+` and `-` are prefix operators, both at precedence 1. */
  lemma UnaryPrecedenceTable(t: TokenKind)
    ensures UnaryPrecedence(t) <= 1
    ensures UnaryPrecedence(t) == 1 <==> t == Plus || t == Minus
  {
  }

  /**
   * The infix table has three levels: `== != && ||` lowest, `* /` in the
   * middle, `+ -` highest; every other kind is not an infix operator.
   */
  lemma BinaryPrecedenceTable(t: TokenKind)
    ensures BinaryPrecedence(t) == 2 <==> t in {EqualEqual, BangEqual, AmpersandAmpersand, PipePipe}
    ensures BinaryPrecedence(t) == 4 <==> t in {Star, Slash}
    ensures BinaryPrecedence(t) == 6 <==> t in {Plus, Minus}
    ensures BinaryPrecedence(t) in {0, 2, 4, 6}
  {
  }

  /** Every prefix operator is also an infix operator, at a higher level. */
  lemma PrefixOperatorsAreInfix(t: TokenKind)
    requires UnaryPrecedence(t) != 0
    ensures BinaryPrecedence(t) > UnaryPrecedence(t)
  {
  }

  /**
   * Reads a listed kind back from the length of its diagnostic name and the
   * name's first two characters; "Invalid Token" reads back as `Comma`,
   * which is unlisted.
   */
  function NamedKindOf(len: nat, c0: char, c1: char): TokenKind {
    if len == 9 then BadToken
    else if len == 10 then (if c0 == 'P' then Plus else Star)
    else if len == 11 then (if c0 == 'M' then Minus else if c0 == 'S' then Slash else Equal)
    else if len == 12 then (if c0 == 'N' then NumberLiteral else StringLiteral)
    else if len == 15 then Semicolon
    else if len == 17 then (if c1 == 'q' then EqualEqual else EndOfFile)
    else Comma
  }

  /** Every diagnostic name reads back as its kind, or as `Comma` when it is "Invalid Token". */
  lemma NameReadsBack(t: TokenKind)
    ensures |TokenName(t)| >= 2
    ensures NamedKindOf(|TokenName(t)|, TokenName(t)[0], TokenName(t)[1]) == if IsNamed(t) then t else Comma
  {
  }

  /** `TokenName` answers "Invalid Token" exactly for the unlisted kinds. */
  lemma TokenNameListed(t: TokenKind)
    ensures TokenName(t) == "Invalid Token" <==> !IsNamed(t)
  {
    NameReadsBack(t);
    NameReadsBack(Comma);
  }

  /** Two different kinds share a diagnostic name only when both are unlisted. */
  lemma TokenNameCollisions(a: TokenKind, b: TokenKind)
    requires a != b && TokenName(a) == TokenName(b)
    ensures !IsNamed(a) && !IsNamed(b)
    ensures TokenName(a) == "Invalid Token"
  {
    NameReadsBack(a);
    NameReadsBack(b);
    TokenNameListed(a);
  }

  /**
   * Reads a spelled kind back from the length of its spelling and the
   * spelling's first and last characters.
   */
  function SpelledKindOf(len: nat, first: char, last: char): TokenKind {
    if len == 1 then (if first == '=' then Equal else if first == '!' then Bang else Semicolon)
    else if len == 2 then
      (if first == '=' then EqualEqual else if first == '!' then BangEqual
       else if first == '&' then AmpersandAmpersand else if first == '|' then PipePipe else IfKw)
    else if len == 3 then IntType
    else if len == 4 then (if first == 'b' then BoolType else if first == 'l' then LongType else True)
    else if len == 5 then
      (if first == 's' then ShortType else if first == 'p' then PrintKw else if last == 't' then FloatType else False)
    else if first == 'd' then DoubleType
    else ReturnKw
  }

  /** Every spelling reads back as its kind. */
  lemma SpellingReadsBack(t: TokenKind)
    requires IsSpelled(t)
    ensures |DisplayToken(t)| >= 1
    ensures SpelledKindOf(|DisplayToken(t)|, DisplayToken(t)[0], DisplayToken(t)[|DisplayToken(t)| - 1]) == t
  {
    var d := DisplayToken(t);
    assert |d| >= 1 && SpelledKindOf(|d|, d[0], d[|d| - 1]) == t by {
      if t == BoolType { assert d == "bool"; }
      else if t == ShortType { assert d == "short"; }
      else if t == IntType { assert d == "int"; }
      else if t == LongType { assert d == "long"; }
      else if t == FloatType { assert d == "float"; }
      else if t == DoubleType { assert d == "double"; }
      else if t == Equal { assert d == "="; }
      else if t == Bang { assert d == "!"; }
      else if t == EqualEqual { assert d == "=="; }
      else if t == BangEqual { assert d == "!="; }
      else if t == AmpersandAmpersand { assert d == "&&"; }
      else if t == PipePipe { assert d == "||"; }
      else if t == Semicolon { assert d == ";"; }
      else if t == PrintKw { assert d == "print"; }
      else if t == False { assert d == "false"; }
      else if t == True { assert d == "true"; }
      else if t == IfKw { assert d == "if"; }
      else if t == ReturnKw { assert d == "return"; }
    }
  }

  /** The spellings are pairwise distinct. */
  lemma DisplaySpellingsDistinct(a: TokenKind, b: TokenKind)
    requires IsSpelled(a) && IsSpelled(b) && a != b
    ensures DisplayToken(a) != DisplayToken(b)
  {
    SpellingReadsBack(a);
    SpellingReadsBack(b);
  }

  /**
   * An unspelled kind yields its name followed by " not found", which is
   * longer than every spelling, so the two cases cannot be confused.
   */
  lemma DisplayTokenFallback(t: TokenKind)
    ensures !IsSpelled(t) ==> DisplayToken(t) == TokenName(t) + " not found"
    ensures IsSpelled(t) <==> |DisplayToken(t)| <= 6
  {
  }
}
