/**
 * lexer.cpp: one forward scan over the program text with an index cursor and
 * a row counter.
 *
 * `LexStep` is the specification of one call of `Lexer::Lex`: from a cursor
 * position and row it gives the token and the new position and row.
 * `LexAllFrom` is the specification of `Lexer::LexAll`.  Where the source
 * loops forever (an unterminated string or comment, or a token that does not
 * move the cursor) the specification answers `Diverges`.
 */
module Lexing {
  import opened Outcomes
  import opened Tokens
  import opened Values

  /** `LookAhead`: the character at `i`, or NUL past the end. */
  function At(p: string, i: nat): char {
    if i < |p| then p[i] else '\0'
  }

  predicate IsNewline(c: char) {
    c == '\n'
  }

  /** `isspace` in the C locale: space, \t, \n, \v, \f, \r. */
  predicate IsSpace(c: char) {
    c == ' ' || c == '\t' || c == '\n' || c == 11 as char || c == 12 as char || c == '\r'
  }

  /** `isalpha` in the C locale. */
  predicate IsAlpha(c: char) {
    'a' <= c <= 'z' || 'A' <= c <= 'Z'
  }

  predicate IsIdentChar(c: char) {
    IsAlpha(c) || IsDigit(c) || c == '_'
  }

  /** The end of the run of characters satisfying `P` that starts at `i`. */
  function ScanWhile(p: string, i: nat, P: char -> bool): (j: nat)
    requires i <= |p|
    ensures i <= j <= |p|
    ensures j < |p| ==> !P(p[j])
    decreases |p| - i
  {
    if i < |p| && P(p[i]) then ScanWhile(p, i + 1, P) else i
  }

  /** Every character of the run satisfies `P`. */
  lemma {:induction false} ScanWhileRun(p: string, i: nat, P: char -> bool)
    requires i <= |p|
    ensures forall k :: i <= k < ScanWhile(p, i, P) ==> P(p[k])
    decreases |p| - i
  {
    if i < |p| && P(p[i]) {
      ScanWhileRun(p, i + 1, P);
    }
  }

  /** The first `e >= s` where a star is followed by a slash (the comment closer). */
  function CommentEnd(p: string, s: nat): (r: Option<nat>)
    requires s <= |p|
    ensures r.Some? ==> s <= r.value && r.value + 1 < |p| && p[r.value] == '*' && p[r.value + 1] == '/'
    decreases |p| - s
  {
    if s >= |p| then None
    else if p[s] == '*' && At(p, s + 1) == '/' then Some(s)
    else CommentEnd(p, s + 1)
  }

  /** No closer comes before the one found, and there is none when none is found. */
  lemma {:induction false} CommentEndFirst(p: string, s: nat)
    requires s <= |p|
    ensures var r := CommentEnd(p, s);
      forall e :: s <= e < (if r.Some? then r.value else |p|) ==> !(p[e] == '*' && At(p, e + 1) == '/')
    decreases |p| - s
  {
    if s < |p| && !(p[s] == '*' && At(p, s + 1) == '/') {
      CommentEndFirst(p, s + 1);
    }
  }

  /** The first `q >= s` holding a double quote. */
  function FindQuote(p: string, s: nat): (r: Option<nat>)
    requires s <= |p|
    ensures r.Some? ==> s <= r.value < |p| && p[r.value] == '"'
    decreases |p| - s
  {
    if s >= |p| then None
    else if p[s] == '"' then Some(s)
    else FindQuote(p, s + 1)
  }

  /** No quote comes before the one found, and there is none when none is found. */
  lemma {:induction false} FindQuoteFirst(p: string, s: nat)
    requires s <= |p|
    ensures var r := FindQuote(p, s);
      forall e :: s <= e < (if r.Some? then r.value else |p|) ==> p[e] != '"'
    decreases |p| - s
  {
    if s < |p| && p[s] != '"' {
      FindQuoteFirst(p, s + 1);
    }
  }

  /** A token together with the cursor position and row after it. */
  datatype Lexed = Lexed(token: SyntaxToken, index: nat, row: nat)

  /** The eleven keywords. */
  predicate IsKeyword(t: TokenKind) {
    t in {PrintKw, False, True, BoolType, ShortType, IntType, LongType, FloatType, DoubleType, IfKw, ReturnKw}
  }

  /** The keywords in the order `Lex` compares them, `print` first. */
  function KeywordAt(n: nat): (kw: TokenKind)
    requires n < 11
    ensures IsKeyword(kw)
  {
    if n == 0 then PrintKw else if n == 1 then False else if n == 2 then True
    else if n == 3 then BoolType else if n == 4 then ShortType else if n == 5 then IntType
    else if n == 6 then LongType else if n == 7 then FloatType else if n == 8 then DoubleType
    else if n == 9 then IfKw else ReturnKw
  }

  /** Where a keyword stands in that order. */
  function KeywordRank(kw: TokenKind): (n: nat)
    requires IsKeyword(kw)
    ensures n < 11 && KeywordAt(n) == kw
  {
    if kw == PrintKw then 0 else if kw == False then 1 else if kw == True then 2
    else if kw == BoolType then 3 else if kw == ShortType then 4 else if kw == IntType then 5
    else if kw == LongType then 6 else if kw == FloatType then 7 else if kw == DoubleType then 8
    else if kw == IfKw then 9 else 10
  }

  /**
   * The first keyword from the `n`-th on spelled exactly `text`: `Lex`
   * compares the whole identifier run with each keyword's spelling in turn.
   */
  function FindKeyword(text: string, n: nat): (r: Option<TokenKind>)
    ensures r.Some? ==> IsKeyword(r.value) && DisplayToken(r.value) == text
    ensures r.None? ==> forall m :: n <= m < 11 ==> DisplayToken(KeywordAt(m)) != text
    decreases 11 - n
  {
    if n >= 11 then None
    else if DisplayToken(KeywordAt(n)) == text then Some(KeywordAt(n))
    else FindKeyword(text, n + 1)
  }

  /** The only keyword a run of this length, first and last letter could spell. */
  function KeywordCandidate(len: nat, first: char, last: char): (r: Option<TokenKind>)
    ensures r.Some? ==> IsKeyword(r.value)
  {
    if len == 2 then Some(IfKw)
    else if len == 3 then Some(IntType)
    else if len == 4 then Some(if first == 'b' then BoolType else if first == 'l' then LongType else True)
    else if len == 5 then
      Some(if first == 's' then ShortType else if first == 'p' then PrintKw else if last == 't' then FloatType else False)
    else if len == 6 then Some(if first == 'd' then DoubleType else ReturnKw)
    else None
  }

  /**
   * The keyword the whole run spells, if any.  The spellings are pairwise
   * distinct, so one candidate comparison answers what the chain of
   * comparisons answers (`KeywordOfInOrder`).
   */
  function KeywordOf(text: string): (r: Option<TokenKind>)
    ensures r.Some? ==> IsKeyword(r.value) && DisplayToken(r.value) == text
  {
    if |text| < 2 then None
    else match KeywordCandidate(|text|, text[0], text[|text| - 1])
      case Some(kw) => if DisplayToken(kw) == text then Some(kw) else None
      case None => None
  }

  /** Each keyword's spelling leads back to it. */
  lemma KeywordReadsBack(kw: TokenKind)
    requires IsKeyword(kw)
    ensures var d := DisplayToken(kw); |d| >= 2 && KeywordCandidate(|d|, d[0], d[|d| - 1]) == Some(kw)
  {
    var d := DisplayToken(kw);
    if kw == PrintKw { assert d == "print"; }
    else if kw == False { assert d == "false"; }
    else if kw == True { assert d == "true"; }
    else if kw == BoolType { assert d == "bool"; }
    else if kw == ShortType { assert d == "short"; }
    else if kw == IntType { assert d == "int"; }
    else if kw == LongType { assert d == "long"; }
    else if kw == FloatType { assert d == "float"; }
    else if kw == DoubleType { assert d == "double"; }
    else if kw == IfKw { assert d == "if"; }
    else if kw == ReturnKw { assert d == "return"; }
  }

  /** The one comparison agrees with the source's chain of comparisons. */
  lemma KeywordOfInOrder(text: string)
    ensures KeywordOf(text) == FindKeyword(text, 0)
  {
    var f := FindKeyword(text, 0);
    if f.Some? {
      KeywordReadsBack(f.value);
    } else if KeywordOf(text).Some? {
      var n := KeywordRank(KeywordOf(text).value);
    }
  }

  /** A fixed-spelling token starting at `k`. */
  function Fixed(kind: TokenKind, spelling: string, k: nat, row: nat): Lexed {
    Lexed(SyntaxToken(kind, spelling, k, row, |spelling|), k + |spelling|, row)
  }

  /** The bad token: empty text, row 0, and the row counter in the length slot. */
  function Bad(k: nat, row: nat): Lexed {
    Lexed(SyntaxToken(BadToken, "", k, 0, row), k + 1, row)
  }

  /** A number: digits, optionally a dot and more digits, kept verbatim. */
  function LexNumber(p: string, k: nat, row: nat): (r: Lexed)
    requires k <= |p|
    ensures k <= r.index <= |p| && r.token.kind == NumberLiteral && r.row == row
    ensures k < |p| && IsDigit(p[k]) ==> k < r.index
  {
    var d := ScanWhile(p, k, IsDigit);
    var e := if At(p, d) == '.' then ScanWhile(p, d + 1, IsDigit) else d;
    Lexed(SyntaxToken(NumberLiteral, p[k..e], k, row, e - k), e, row)
  }

  /** A number token opening on a digit has a non-empty leading digit run. */
  lemma LexNumberDigits(p: string, k: nat, row: nat)
    requires k < |p| && IsDigit(p[k])
    ensures DigitRun(LexNumber(p, k, row).token.value) > 0
  {
    assert LexNumber(p, k, row).token.value[0] == p[k];
  }

  /** An identifier or, when the whole run spells one, a keyword. */
  function LexWord(p: string, k: nat, row: nat): (r: Lexed)
    requires k <= |p|
    ensures k <= r.index <= |p| && !r.token.kind.IsSentinel() && r.row == row
    ensures k < |p| && (IsAlpha(p[k]) || p[k] == '_') ==> k < r.index
  {
    var e := ScanWhile(p, k, IsIdentChar);
    var text := p[k..e];
    match KeywordOf(text)
    case Some(kw) => Lexed(SyntaxToken(kw, DisplayToken(kw), k, row, e - k), e, row)
    case None => Lexed(SyntaxToken(Identifier, text, k, row, e - k), e, row)
  }

  /** A string literal opening at `k`: the token holds the text between the quotes. */
  function LexString(p: string, k: nat, row: nat): (r: Res<Lexed>)
    requires k < |p| && p[k] == '"'
    ensures r.Ok? ==> k < r.value.index <= |p| && r.value.token.kind == StringLiteral
  {
    match FindQuote(p, k + 1)
    case None => Fail(Diverges("unterminated string literal"))
    case Some(q) => Ok(Lexed(SyntaxToken(StringLiteral, p[k + 1..q], k + 1, row, q - (k + 1)), q + 1, row))
  }

  /** The `switch` of `Lex` for every character but a digit, a letter, `_`, `"` and a comment opener. */
  function LexSymbol(p: string, k: nat, row: nat): (r: Lexed)
    requires k <= |p|
    ensures r.token.kind != EndOfFile
    ensures r.token.kind == BadToken ==> r.index == k + 1
    ensures r.token.kind != BadToken ==> k <= r.index <= |p|
    ensures r.index == k <==> At(p, k) == '!' && At(p, k + 1) != '='
    ensures r.index == k ==> r.token.kind == Bang && r.row == row
  {
    var c := At(p, k);
    var n := At(p, k + 1);
    if c == '+' then
      if n == '+' && At(p, k + 2) == '+' then Fixed(TriplePlus, "+++", k, row)
      else if n == '+' then Fixed(PlusPlus, "++", k, row)
      else if n == '=' then Fixed(PlusEqual, "+=", k, row)
      else Fixed(Plus, "+", k, row)
    else if c == '-' then
      if n == '-' then Fixed(MinusMinus, "--", k, row)
      else if n == '=' then Fixed(MinusEqual, "-=", k, row)
      else Fixed(Minus, "-", k, row)
    else if c == '*' then
      if n == '=' then Fixed(StarEqual, "*=", k, row) else Fixed(Star, "*", k, row)
    else if c == '/' then
      if n == '=' then Fixed(SlashEqual, "/=", k, row) else Fixed(Slash, "/", k, row)
    else if c == ',' then Fixed(Comma, ",", k, row)
    else if c == '(' then Fixed(OpenParen, "(", k, row)
    else if c == ')' then Fixed(CloseParen, ")", k, row)
    else if c == '{' then Fixed(OpenCurly, "{", k, row)
    else if c == '}' then Fixed(CloseCurly, "}", k, row)
    else if c == '=' then
      if n == '=' then Fixed(EqualEqual, "==", k, row) else Fixed(Equal, "=", k, row)
    else if c == '!' then
      if n == '=' then Fixed(BangEqual, "!=", k, row)
      // the lone `!` reports the position before it and leaves the cursor where it is
      else Lexed(SyntaxToken(Bang, "!", ToSize(k - 1), row, 1), k, row)
    else if c == '&' && n == '&' then Fixed(AmpersandAmpersand, "&&", k, row)
    else if c == '|' && n == '|' then Fixed(PipePipe, "||", k, row)
    else if c == ';' then Fixed(Semicolon, ";", k, row)
    else Bad(k, row)
  }

  /** `Lex` once the whitespace is skipped, with the cursor at `k`. */
  function LexAt(p: string, k: nat, row: nat): (r: Res<Lexed>)
    requires k <= |p|
    ensures r.Ok? ==> r.value.index <= |p| + 1 && (!r.value.token.kind.IsSentinel() ==> k <= r.value.index <= |p|)
    decreases |p| + 1 - k, 0
  {
    var c := At(p, k);
    if IsDigit(c) then Ok(LexNumber(p, k, row))
    else if IsAlpha(c) || c == '_' then Ok(LexWord(p, k, row))
    else if c == '/' && At(p, k + 1) == '*' then
      match CommentEnd(p, k + 2)
      case None => Fail(Diverges("unterminated comment"))
      case Some(e) => LexStep(p, e + 2, row)
    else if c == '"' then LexString(p, k, row)
    else Ok(LexSymbol(p, k, row))
  }

  /** One call of `Lex` from cursor `i` with row counter `row`. */
  function LexStep(p: string, i: nat, row: nat): (r: Res<Lexed>)
    requires i <= |p| + 1
    ensures r.Ok? ==> r.value.index <= |p| + 1 && (!r.value.token.kind.IsSentinel() ==> i <= r.value.index <= |p|)
    decreases |p| + 1 - i, 1
  {
    if At(p, i) == '\0' then Ok(Lexed(SyntaxToken(EndOfFile, "", i, 0, row), i, row))
    else
      var j := ScanWhile(p, i, IsNewline);
      var k := ScanWhile(p, j, IsSpace);
      LexAt(p, k, row + (j - i))
  }

  /**
   * `LexAll` from cursor `i`: the tokens up to and including the first
   * sentinel.  A non-sentinel token that leaves the cursor in place means
   * the source loop never ends.
   */
  function LexAllFrom(p: string, i: nat, row: nat): (r: Res<seq<SyntaxToken>>)
    requires i <= |p| + 1
    decreases |p| + 1 - i
  {
    match LexStep(p, i, row)
    case Fail(a) => Fail(a)
    case Ok(Lexed(t, i', row')) =>
      if t.kind == EndOfFile || t.kind == BadToken then Ok([t])
      else if i' == i then Fail(Diverges("lexer cursor stopped advancing"))
      else
        match LexAllFrom(p, i', row')
        case Fail(a) => Fail(a)
        case Ok(rest) => Ok([t] + rest)
  }

  /**
   * What a finished scan yields: a sentinel last and nowhere else.
   */
  predicate TokensWellFormed(ts: seq<SyntaxToken>) {
    && SentinelLast(ts)
    && (forall i :: 0 <= i < |ts| - 1 ==> !ts[i].kind.IsSentinel())
  }

  /** The list is closed by a sentinel, so a cursor on any other token can step forward. */
  predicate SentinelLast(ts: seq<SyntaxToken>) {
    |ts| > 0 && ts[|ts| - 1].kind.IsSentinel()
  }

  /** The whole program, from a fresh lexer. */
  function Tokenize(p: string): Res<seq<SyntaxToken>> {
    LexAllFrom(p, 0, 0)
  }

  class Lexer {
    const program: string
    var index: nat
    var row: nat

    /** The cursor is at most one past the end (a bad token at the end steps over it). */
    predicate Valid()
      reads this
    {
      index <= |program| + 1
    }

    constructor(program: string)
      ensures this.program == program && index == 0 && row == 0
      ensures Valid()
    {
      this.program := program;
      index := 0;
      row := 0;
    }

    /** `LookAhead(offset)`: reads past the end give NUL. */
    function LookAhead(offset: nat): (c: char)
      reads this
      ensures index + offset < |program| ==> c == program[index + offset]
      ensures index + offset >= |program| ==> c == '\0'
    {
      At(program, index + offset)
    }

    function Current(): char
      reads this
    {
      LookAhead(0)
    }

    function PeekNext(): char
      reads this
    {
      LookAhead(1)
    }

    /** `advance`: moves one character forward, never past the end. */
    method Advance()
      modifies this
      ensures index == if old(index) < |program| then old(index) + 1 else old(index)
      ensures row == old(row)
    {
      if index < |program| {
        index := index + 1;
      }
    }

    /** The leading newline loop (which counts rows) and the whitespace loop (which does not). */
    method SkipWhitespace()
      requires index < |program|
      modifies this
      ensures var j := ScanWhile(program, old(index), IsNewline);
        index == ScanWhile(program, j, IsSpace) && row == old(row) + (j - old(index))
    {
      ghost var j := ScanWhile(program, index, IsNewline);
      ghost var row0 := old(row);
      ghost var i0 := index;
      while Current() == '\n'
        invariant i0 <= index <= |program|
        invariant ScanWhile(program, index, IsNewline) == j
        invariant row == row0 + (index - i0)
        decreases |program| - index
      {
        row := row + 1;
        Advance();
      }
      ghost var k := ScanWhile(program, index, IsSpace);
      while IsSpace(Current())
        invariant j <= index <= |program|
        invariant ScanWhile(program, index, IsSpace) == k
        invariant row == row0 + (j - i0)
        decreases |program| - index
      {
        Advance();
      }
    }

    /** The number branch of `Lex`. */
    method LexNumberHere() returns (t: SyntaxToken)
      requires index <= |program| && IsDigit(Current())
      modifies this
      ensures var l := LexNumber(program, old(index), old(row));
        t == l.token && index == l.index && row == l.row
    {
      var start := index;
      ghost var d := ScanWhile(program, start, IsDigit);
      while IsDigit(Current())
        invariant start <= index <= |program|
        invariant ScanWhile(program, index, IsDigit) == d
        invariant row == old(row)
        decreases |program| - index
      {
        Advance();
      }
      if Current() == '.' {
        Advance();
        ghost var e := ScanWhile(program, index, IsDigit);
        while IsDigit(Current())
          invariant d + 1 <= index <= |program|
          invariant ScanWhile(program, index, IsDigit) == e
          invariant row == old(row)
          decreases |program| - index
        {
          Advance();
        }
      }
      var length := index - start;
      t := SyntaxToken(NumberLiteral, program[start..index], start, row, length);
    }

    /** The identifier branch of `Lex`: the nested letter and digit loops, then the keyword comparisons. */
    method LexWordHere() returns (t: SyntaxToken)
      requires index <= |program| && (IsAlpha(Current()) || Current() == '_')
      modifies this
      ensures var l := LexWord(program, old(index), old(row));
        t == l.token && index == l.index && row == l.row
    {
      var start := index;
      ghost var e := ScanWhile(program, start, IsIdentChar);
      while Current() == '_' || IsAlpha(Current())
        invariant start <= index <= |program|
        invariant ScanWhile(program, index, IsIdentChar) == e
        invariant index == start || !IsDigit(Current())
        invariant row == old(row)
        decreases |program| - index
      {
        Advance();
        while IsDigit(Current())
          invariant start < index <= |program|
          invariant ScanWhile(program, index, IsIdentChar) == e
          invariant row == old(row)
          decreases |program| - index
        {
          Advance();
        }
      }
      var length := index - start;
      var text := program[start..index];
      var kw := KeywordOf(text);
      if kw.Some? {
        t := SyntaxToken(kw.value, DisplayToken(kw.value), start, row, length);
      } else {
        t := SyntaxToken(Identifier, text, start, row, length);
      }
    }

    /** The string branch of `Lex`; the search for the closing quote never ends when there is none. */
    method LexStringHere() returns (r: Res<SyntaxToken>)
      requires index < |program| && program[index] == '"'
      modifies this
      ensures index <= |program|
      ensures var l := LexString(program, old(index), old(row));
        (l.Ok? ==> r == Ok(l.value.token) && index == l.value.index && row == l.value.row) &&
        (l.Fail? ==> r == Fail(l.abrupt))
    {
      Advance();
      var start := index;
      ghost var q := FindQuote(program, start);
      while Current() != '"' && index < |program|
        invariant start <= index <= |program|
        invariant FindQuote(program, index) == q
        invariant row == old(row)
        decreases |program| - index
      {
        Advance();
      }
      if index == |program| {
        // `Current()` is NUL from here on and `advance` no longer moves: the source spins
        return Fail(Diverges("unterminated string literal"));
      }
      var length := index - start;
      var text := program[start..index];
      Advance();
      r := Ok(SyntaxToken(StringLiteral, text, start, row, length));
    }

    /** The comment branch of `Lex`: skip past the first comment closer, then lex again. */
    method SkipComment() returns (found: bool)
      requires index + 1 < |program| && program[index] == '/' && program[index + 1] == '*'
      modifies this
      ensures row == old(row) && index <= |program|
      ensures var e := CommentEnd(program, old(index) + 2);
        found == e.Some? && (found ==> index == e.value + 2)
    {
      Advance();
      Advance();
      ghost var e := CommentEnd(program, index);
      while (Current() != '*' || PeekNext() != '/') && index < |program|
        invariant old(index) + 2 <= index <= |program|
        invariant CommentEnd(program, index) == e
        invariant row == old(row)
        decreases |program| - index
      {
        Advance();
      }
      if index == |program| {
        // the source keeps calling `advance` at the end of the text
        return false;
      }
      Advance();
      Advance();
      found := true;
    }

    /** The `switch` of `Lex` for operators, punctuation and the bad token. */
    method LexSymbolHere() returns (t: SyntaxToken)
      requires index <= |program|
      modifies this
      ensures var l := LexSymbol(program, old(index), old(row));
        t == l.token && index == l.index && row == l.row
    {
      var c := Current();
      var n := PeekNext();
      if c == '+' {
        if n == '+' && LookAhead(2) == '+' {
          index := index + 3;
          return SyntaxToken(TriplePlus, "+++", index - 3, row, 3);
        }
        if n == '+' {
          index := index + 2;
          return SyntaxToken(PlusPlus, "++", index - 2, row, 2);
        }
        if n == '=' {
          index := index + 2;
          return SyntaxToken(PlusEqual, "+=", index - 2, row, 2);
        }
        t := SyntaxToken(Plus, "+", index, row, 1);
        index := index + 1;
      } else if c == '-' {
        if n == '-' {
          index := index + 2;
          return SyntaxToken(MinusMinus, "--", index - 2, row, 2);
        }
        if n == '=' {
          index := index + 2;
          return SyntaxToken(MinusEqual, "-=", index - 2, row, 2);
        }
        t := SyntaxToken(Minus, "-", index, row, 1);
        index := index + 1;
      } else if c == '*' {
        if n == '=' {
          index := index + 2;
          return SyntaxToken(StarEqual, "*=", index - 2, row, 2);
        }
        t := SyntaxToken(Star, "*", index, row, 1);
        index := index + 1;
      } else if c == '/' {
        if n == '=' {
          index := index + 2;
          return SyntaxToken(SlashEqual, "/=", index - 2, row, 2);
        }
        t := SyntaxToken(Slash, "/", index, row, 1);
        index := index + 1;
      } else if c == ',' {
        t := SyntaxToken(Comma, ",", index, row, 1);
        index := index + 1;
      } else if c == '(' {
        t := SyntaxToken(OpenParen, "(", index, row, 1);
        index := index + 1;
      } else if c == ')' {
        t := SyntaxToken(CloseParen, ")", index, row, 1);
        index := index + 1;
      } else if c == '{' {
        t := SyntaxToken(OpenCurly, "{", index, row, 1);
        index := index + 1;
      } else if c == '}' {
        t := SyntaxToken(CloseCurly, "}", index, row, 1);
        index := index + 1;
      } else if c == '=' {
        if n == '=' {
          index := index + 2;
          return SyntaxToken(EqualEqual, "==", index - 2, row, 2);
        }
        t := SyntaxToken(Equal, "=", index, row, 1);
        index := index + 1;
      } else if c == '!' {
        if n == '=' {
          index := index + 2;
          return SyntaxToken(BangEqual, "!=", index - 2, row, 2);
        }
        t := SyntaxToken(Bang, "!", ToSize(index - 1), row, 1);
      } else if c == '&' && n == '&' {
        index := index + 2;
        return SyntaxToken(AmpersandAmpersand, "&&", index - 2, row, 2);
      } else if c == '|' && n == '|' {
        index := index + 2;
        return SyntaxToken(PipePipe, "||", index - 2, row, 2);
      } else if c == ';' {
        t := SyntaxToken(Semicolon, ";", index, row, 1);
        index := index + 1;
      } else {
        t := SyntaxToken(BadToken, "", index, 0, row);
        index := index + 1;
      }
    }

    /** `Lex`: one token from the cursor, as `LexStep` specifies. */
    method Lex() returns (r: Res<SyntaxToken>)
      requires Valid()
      modifies this
      ensures Valid()
      ensures var l := LexStep(program, old(index), old(row));
        (l.Ok? ==> r == Ok(l.value.token) && index == l.value.index && row == l.value.row) &&
        (l.Fail? ==> r == Fail(l.abrupt))
      decreases |program| + 1 - index, 1
    {
      if Current() == '\0' {
        return Ok(SyntaxToken(EndOfFile, "", index, 0, row));
      }
      SkipWhitespace();
      r := LexHere();
    }

    /** The body of `Lex` after the whitespace loops, as `LexAt` specifies. */
    method LexHere() returns (r: Res<SyntaxToken>)
      requires index <= |program|
      modifies this
      ensures Valid()
      ensures var l := LexAt(program, old(index), old(row));
        (l.Ok? ==> r == Ok(l.value.token) && index == l.value.index && row == l.value.row) &&
        (l.Fail? ==> r == Fail(l.abrupt))
      decreases |program| + 1 - index, 0
    {
      if IsDigit(Current()) {
        var t := LexNumberHere();
        return Ok(t);
      }
      if IsAlpha(Current()) || Current() == '_' {
        var t := LexWordHere();
        return Ok(t);
      }
      if Current() == '/' && PeekNext() == '*' {
        var found := SkipComment();
        if !found {
          return Fail(Diverges("unterminated comment"));
        }
        r := Lex();
        return;
      }
      if Current() == '"' {
        r := LexStringHere();
        return;
      }
      var t := LexSymbolHere();
      r := Ok(t);
    }

    /** `LexAll`: tokens up to and including the first end or bad token. */
    method LexAll() returns (r: Res<seq<SyntaxToken>>)
      requires Valid()
      modifies this
      ensures r == LexAllFrom(program, old(index), old(row))
    {
      var tokens: seq<SyntaxToken> := [];
      while true
        invariant Valid()
        invariant LexAllFrom(program, old(index), old(row)) == Prepend(tokens, LexAllFrom(program, index, row))
        decreases |program| + 1 - index
      {
        var before := index;
        ghost var row0 := row;
        var res := Lex();
        if res.Fail? {
          return Fail(res.abrupt);
        }
        var token := res.value;
        if token.kind == EndOfFile || token.kind == BadToken {
          // `LexAll` pushes the end token and breaks; a bad token ends the `while`
          return Ok(tokens + [token]);
        }
        if index == before {
          // the source pushes this token again and again
          return Fail(Diverges("lexer cursor stopped advancing"));
        }
        LexAllFromStep(program, before, row0);
        PrependAssoc(tokens, token, LexAllFrom(program, index, row));
        tokens := tokens + [token];
      }
    }
  }

  /** `tokens` followed by the outcome of the rest of the scan. */
  function Prepend(tokens: seq<SyntaxToken>, rest: Res<seq<SyntaxToken>>): (r: Res<seq<SyntaxToken>>)
    ensures tokens == [] ==> r == rest
  {
    match rest
    case Fail(a) => Fail(a)
    case Ok(ts) => assert tokens == [] ==> tokens + ts == ts; Ok(tokens + ts)
  }

  lemma PrependAssoc(tokens: seq<SyntaxToken>, t: SyntaxToken, rest: Res<seq<SyntaxToken>>)
    ensures Prepend(tokens, Prepend([t], rest)) == Prepend(tokens + [t], rest)
  {
    if rest.Ok? {
      assert tokens + ([t] + rest.value) == (tokens + [t]) + rest.value;
    }
  }

  /** A step that yields a non-sentinel and moves the cursor puts its token in front of the rest. */
  lemma LexAllFromStep(p: string, i: nat, row: nat)
    requires i <= |p| + 1
    requires LexStep(p, i, row).Ok?
    requires var l := LexStep(p, i, row).value; !l.token.kind.IsSentinel() && l.index != i
    ensures var l := LexStep(p, i, row).value;
      l.index <= |p| + 1 && LexAllFrom(p, i, row) == Prepend([l.token], LexAllFrom(p, l.index, l.row))
  {
  }
}
