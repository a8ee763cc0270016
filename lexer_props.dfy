/**
 * What the lexer promises about the token stream: the sentinel at its end,
 * exact keywords, maximal munch, the shape of numbers and strings, the bad
 * token, and the one way the cursor can stall.
 */
module LexerProperties {
  import opened Outcomes
  import opened Tokens
  import opened Values
  import opened Lexing

  /** The empty program lexes to one end token at position 0. */
  lemma EmptyProgram()
    ensures Tokenize("") == Ok([SyntaxToken(EndOfFile, "", 0, 0, 0)])
  {
  }

  /** The end token: the cursor as position, row 0, and the row counter in the length slot. */
  lemma EndTokenShape(p: string, i: nat, row: nat)
    requires i <= |p| + 1
    requires At(p, i) == '\0'
    ensures LexStep(p, i, row) == Ok(Lexed(SyntaxToken(EndOfFile, "", i, 0, row), i, row))
  {
  }

  /**
   * A successful scan ends with exactly one sentinel and holds none before
   * it.
   */
  lemma {:induction false} LexAllWellFormed(p: string, i: nat, row: nat)
    requires i <= |p| + 1
    ensures LexAllFrom(p, i, row).Ok? ==> TokensWellFormed(LexAllFrom(p, i, row).value)
    decreases |p| + 1 - i
  {
    var s := LexStep(p, i, row);
    if s.Ok? {
      var l := s.value;
      if !l.token.kind.IsSentinel() && l.index != i {
        LexAllWellFormed(p, l.index, l.row);
        var rest := LexAllFrom(p, l.index, l.row);
        if rest.Ok? {
          var ts := [l.token] + rest.value;
          assert LexAllFrom(p, i, row) == Ok(ts);
          forall m | 0 < m < |ts|
            ensures ts[m] == rest.value[m - 1]
          {
          }
        }
      }
    }
  }

  /** So every program the lexer finishes with yields well-formed tokens. */
  lemma TokenizeWellFormed(p: string)
    ensures Tokenize(p).Ok? ==> TokensWellFormed(Tokenize(p).value)
  {
    LexAllWellFormed(p, 0, 0);
  }

  /** A keyword is recognised exactly when the whole run spells one of the keywords. */
  lemma KeywordExact(text: string)
    ensures KeywordOf(text).Some? <==> exists kw :: IsKeyword(kw) && DisplayToken(kw) == text
  {
    if KeywordOf(text).None? {
      forall kw | IsKeyword(kw)
        ensures DisplayToken(kw) != text
      {
        KeywordOfInOrder(text);
        var n := KeywordRank(kw);
      }
    }
  }

  /** Every keyword spelling has at most six characters, so a longer run is an identifier. */
  lemma LongRunIsNoKeyword(text: string)
    requires |text| > 6
    ensures FindKeyword(text, 0) == None
  {
    KeywordOfInOrder(text);
  }

  /**
   * A word token spans a maximal identifier run; it is a keyword exactly
   * when that run is a keyword spelling, and otherwise keeps the run as text.
   */
  lemma WordToken(p: string, k: nat, row: nat)
    requires k < |p| && (IsAlpha(p[k]) || p[k] == '_')
    ensures var l := LexWord(p, k, row);
      k < l.index && l.token.pos == k && l.token.len == l.index - k && l.token.row == row &&
      (forall m :: k <= m < l.index ==> IsIdentChar(p[m])) &&
      (l.index < |p| ==> !IsIdentChar(p[l.index])) &&
      (KeywordOf(p[k..l.index]).Some? ==> l.token.kind == KeywordOf(p[k..l.index]).value && l.token.value == p[k..l.index]) &&
      (KeywordOf(p[k..l.index]).None? ==> l.token.kind == Identifier && l.token.value == p[k..l.index])
  {
    ScanWhileRun(p, k, IsIdentChar);
  }

  /** `printifreturn` is a single identifier, not three keywords. */
  lemma PrintIfReturnIsOneIdentifier(p: string)
    requires p == "printifreturn"
    ensures Tokenize(p) ==
      Ok([SyntaxToken(Identifier, p, 0, 0, 13), SyntaxToken(EndOfFile, "", 13, 0, 0)])
  {
    PrintIfReturnFirst(p);
    assert LexAllFrom(p, 13, 0) == Ok([SyntaxToken(EndOfFile, "", 13, 0, 0)]) by {
      assert LexStep(p, 13, 0) == Ok(Lexed(SyntaxToken(EndOfFile, "", 13, 0, 0), 13, 0));
    }
    LexAllFromStep(p, 0, 0);
    assert [SyntaxToken(Identifier, "printifreturn", 0, 0, 13)] + [SyntaxToken(EndOfFile, "", 13, 0, 0)]
      == [SyntaxToken(Identifier, "printifreturn", 0, 0, 13), SyntaxToken(EndOfFile, "", 13, 0, 0)];
  }

  /** The first step of `PrintIfReturnIsOneIdentifier` reads the whole run as an identifier. */
  lemma PrintIfReturnFirst(p: string)
    requires p == "printifreturn"
    ensures LexStep(p, 0, 0) == Ok(Lexed(SyntaxToken(Identifier, "printifreturn", 0, 0, 13), 13, 0))
  {
    assert ScanWhile(p, 0, IsNewline) == 0;
    assert ScanWhile(p, 0, IsSpace) == 0;
    assert ScanWhile(p, 0, IsIdentChar) == 13 by {
      assert forall m :: 0 <= m < 13 ==> IsIdentChar(p[m]);
      ScanToEnd(p, 0, IsIdentChar);
    }
    assert p[0..13] == p;
    assert KeywordOf(p) == None;
  }

  /** A run over characters that all satisfy `P` reaches the end of the text. */
  lemma ScanToEnd(p: string, i: nat, P: char -> bool)
    requires i <= |p|
    requires forall m :: i <= m < |p| ==> P(p[m])
    ensures ScanWhile(p, i, P) == |p|
  {
  }

  /**
   * Every operator token is positioned at its first character, and its
   * length is its spelling's length, which is how far the cursor moves.
   */
  lemma OperatorPosition(p: string, k: nat, row: nat)
    requires k <= |p|
    requires var t := LexSymbol(p, k, row).token; t.kind != BadToken && LexSymbol(p, k, row).index != k
    ensures var l := LexSymbol(p, k, row);
      l.index > k && l.token.pos == k && l.token.len == |l.token.value| == l.index - k && l.token.row == row
  {
  }

  /** Maximal munch: a shorter operator is chosen only when no longer one is spelled. */
  lemma MaximalMunch(p: string, k: nat, row: nat)
    requires k <= |p|
    ensures var t := LexSymbol(p, k, row).token;
      (t.kind == Plus ==> At(p, k + 1) != '+' && At(p, k + 1) != '=') &&
      (t.kind == PlusPlus ==> At(p, k + 2) != '+') &&
      (t.kind == Minus ==> At(p, k + 1) != '-' && At(p, k + 1) != '=') &&
      (t.kind == Star ==> At(p, k + 1) != '=') &&
      (t.kind == Slash ==> At(p, k + 1) != '=') &&
      (t.kind == Equal ==> At(p, k + 1) != '=') &&
      (t.kind == Bang ==> At(p, k + 1) != '=')
    ensures At(p, k) == '+' && At(p, k + 1) == '+' && At(p, k + 2) == '+' ==> LexSymbol(p, k, row).token.kind == TriplePlus
    ensures At(p, k) == '&' ==> (LexSymbol(p, k, row).token.kind == AmpersandAmpersand <==> At(p, k + 1) == '&')
    ensures At(p, k) == '|' ==> (LexSymbol(p, k, row).token.kind == PipePipe <==> At(p, k + 1) == '|')
  {
  }

  /**
   * A number token: a maximal digit run, then, when a dot follows, the dot
   * and the digit run after it; the text is the verbatim slice.
   */
  lemma NumberShape(p: string, k: nat, row: nat)
    requires k < |p| && IsDigit(p[k])
    ensures var l := LexNumber(p, k, row);
      var d := ScanWhile(p, k, IsDigit);
      k < d <= l.index &&
      l.token.value == p[k..l.index] && l.token.pos == k && l.token.len == l.index - k &&
      (forall m :: k <= m < d ==> IsDigit(p[m])) &&
      (d == l.index ==> At(p, d) != '.' && !IsDigit(At(p, d)))
  {
    ScanWhileRun(p, k, IsDigit);
  }

  /** When the digit run is followed by a dot, the token goes on over the dot and the digit run after it. */
  lemma NumberFraction(p: string, k: nat, row: nat)
    requires k < |p| && IsDigit(p[k])
    ensures var l := LexNumber(p, k, row);
      var d := ScanWhile(p, k, IsDigit);
      d < l.index <==> At(p, d) == '.'
    ensures var l := LexNumber(p, k, row);
      var d := ScanWhile(p, k, IsDigit);
      d < l.index ==> (forall m :: d < m < l.index ==> IsDigit(p[m])) && !IsDigit(At(p, l.index))
  {
    var d := ScanWhile(p, k, IsDigit);
    if At(p, d) == '.' {
      ScanWhileRun(p, d + 1, IsDigit);
    }
  }

  /** A string token holds the quote-free text between the quotes and starts after the opening one. */
  lemma StringInterior(p: string, k: nat, row: nat)
    requires k < |p| && p[k] == '"'
    ensures var r := LexString(p, k, row);
      r.Ok? <==> exists q :: k < q < |p| && p[q] == '"'
    ensures var r := LexString(p, k, row);
      r.Ok? ==>
        var q := r.value.index - 1;
        k < q < |p| && p[q] == '"' && r.value.token.value == p[k + 1..q] &&
        r.value.token.pos == k + 1 && r.value.token.len == q - (k + 1) &&
        '"' !in r.value.token.value
  {
    var f := FindQuote(p, k + 1);
    FindQuoteFirst(p, k + 1);
    if f.None? {
      forall q | k < q < |p|
        ensures p[q] != '"'
      {
      }
    } else {
      var q := f.value;
      var text := p[k + 1..q];
      forall m | 0 <= m < |text|
        ensures text[m] != '"'
      {
        assert text[m] == p[k + 1 + m];
      }
    }
  }

  /** A comment closed later in the text is skipped, and lexing resumes right after it. */
  lemma CommentSkipped(p: string, k: nat, row: nat)
    requires k + 1 < |p| && p[k] == '/' && p[k + 1] == '*'
    ensures CommentEnd(p, k + 2).Some? ==> LexAt(p, k, row) == LexStep(p, CommentEnd(p, k + 2).value + 2, row)
    ensures CommentEnd(p, k + 2).None? ==> LexAt(p, k, row) == Fail(Diverges("unterminated comment"))
  {
  }

  /** The comment and the whitespace disappear from the stream. */
  lemma CommentThenNumber(p: string)
    requires p == "/* a */ 1"
    ensures Tokenize(p) ==
      Ok([SyntaxToken(NumberLiteral, "1", 8, 0, 1), SyntaxToken(EndOfFile, "", 9, 0, 0)])
  {
    CommentThenNumberFirst(p);
    assert LexAllFrom(p, 9, 0) == Ok([SyntaxToken(EndOfFile, "", 9, 0, 0)]) by {
      assert LexStep(p, 9, 0) == Ok(Lexed(SyntaxToken(EndOfFile, "", 9, 0, 0), 9, 0));
    }
    LexAllFromStep(p, 0, 0);
    assert [SyntaxToken(NumberLiteral, "1", 8, 0, 1)] + [SyntaxToken(EndOfFile, "", 9, 0, 0)]
      == [SyntaxToken(NumberLiteral, "1", 8, 0, 1), SyntaxToken(EndOfFile, "", 9, 0, 0)];
  }

  /** The first step of `CommentThenNumber`: the comment is skipped, then the space, then the number is read. */
  lemma CommentThenNumberFirst(p: string)
    requires p == "/* a */ 1"
    ensures LexStep(p, 0, 0) == Ok(Lexed(SyntaxToken(NumberLiteral, "1", 8, 0, 1), 9, 0))
  {
    assert LexStep(p, 7, 0) == Ok(Lexed(SyntaxToken(NumberLiteral, "1", 8, 0, 1), 9, 0)) by {
      assert ScanWhile(p, 7, IsNewline) == 7;
      assert ScanWhile(p, 7, IsSpace) == 8;
      assert ScanWhile(p, 8, IsDigit) == 9;
      assert LexNumber(p, 8, 0) == Lexed(SyntaxToken(NumberLiteral, "1", 8, 0, 1), 9, 0);
    }
    CommentThenNumberSkip(p);
  }

  /** Lexing `/* a */ 1` from the start resumes after the comment closer. */
  lemma CommentThenNumberSkip(p: string)
    requires p == "/* a */ 1"
    ensures LexStep(p, 0, 0) == LexStep(p, 7, 0)
  {
    assert ScanWhile(p, 0, IsNewline) == 0;
    assert ScanWhile(p, 0, IsSpace) == 0;
    assert CommentEnd(p, 5) == Some(5);
    assert CommentEnd(p, 4) == Some(5);
    assert CommentEnd(p, 3) == Some(5);
    assert CommentEnd(p, 2) == Some(5);
    CommentSkipped(p, 0, 0);
  }

  /** A character that starts no token gives the bad token, which ends the scan. */
  lemma LoneAmpersandIsBad(p: string, k: nat, row: nat)
    requires k < |p| && ((p[k] == '&' && At(p, k + 1) != '&') || (p[k] == '|' && At(p, k + 1) != '|'))
    ensures LexAt(p, k, row) == Ok(Bad(k, row))
  {
  }

  /**
   * Whitespace at the very end is not the end of the text: the end check
   * comes before the whitespace is skipped, so the NUL read afterwards
   * gives the bad token one past the end.
   */
  lemma TrailingWhitespaceIsBad(p: string, i: nat, row: nat)
    requires i < |p|
    requires forall m :: i <= m < |p| ==> IsSpace(p[m])
    ensures LexStep(p, i, row).Ok?
    ensures LexStep(p, i, row).value.token == SyntaxToken(BadToken, "", |p|, 0, LexStep(p, i, row).value.row)
    ensures LexStep(p, i, row).value.index == |p| + 1
  {
    var j := ScanWhile(p, i, IsNewline);
    var k := ScanWhile(p, j, IsSpace);
    assert k == |p|;
  }

  /** `1 ` (a number and a trailing space) ends in the bad token, not the end token. */
  lemma TrailingSpaceExample(p: string)
    requires p == "1 "
    ensures Tokenize(p) ==
      Ok([SyntaxToken(NumberLiteral, "1", 0, 0, 1), SyntaxToken(BadToken, "", 2, 0, 0)])
  {
    TrailingSpaceFirst(p);
    assert LexAllFrom(p, 1, 0) == Ok([SyntaxToken(BadToken, "", 2, 0, 0)]) by {
      TrailingWhitespaceIsBad(p, 1, 0);
      assert ScanWhile(p, 1, IsNewline) == 1;
    }
    LexAllFromStep(p, 0, 0);
    assert [SyntaxToken(NumberLiteral, "1", 0, 0, 1)] + [SyntaxToken(BadToken, "", 2, 0, 0)]
      == [SyntaxToken(NumberLiteral, "1", 0, 0, 1), SyntaxToken(BadToken, "", 2, 0, 0)];
  }

  /** The first step of `TrailingSpaceExample` reads the number. */
  lemma TrailingSpaceFirst(p: string)
    requires p == "1 "
    ensures LexStep(p, 0, 0) == Ok(Lexed(SyntaxToken(NumberLiteral, "1", 0, 0, 1), 1, 0))
  {
    assert ScanWhile(p, 0, IsNewline) == 0;
    assert ScanWhile(p, 0, IsSpace) == 0;
    assert ScanWhile(p, 0, IsDigit) == 1;
    assert LexNumber(p, 0, 0) == Lexed(SyntaxToken(NumberLiteral, "1", 0, 0, 1), 1, 0);
  }

  /** `LexAt` at position `k` stalls on a non-sentinel token only on a lone `!`. */
  lemma StallAt(p: string, k: nat, row: nat)
    requires k <= |p|
    ensures var r := LexAt(p, k, row);
      r.Ok? && !r.value.token.kind.IsSentinel() ==> k <= r.value.index
    ensures var r := LexAt(p, k, row);
      (r.Ok? && !r.value.token.kind.IsSentinel() && r.value.index == k) ==>
      (At(p, k) == '!' && At(p, k + 1) != '=')
  {
    var c := At(p, k);
    if IsDigit(c) {
      assert LexAt(p, k, row) == Ok(LexNumber(p, k, row));
    } else if IsAlpha(c) || c == '_' {
      assert LexAt(p, k, row) == Ok(LexWord(p, k, row));
    } else if c == '/' && At(p, k + 1) == '*' {
      StallAtComment(p, k, row);
    } else if c == '"' {
      assert LexAt(p, k, row) == LexString(p, k, row);
    } else {
      assert LexAt(p, k, row) == Ok(LexSymbol(p, k, row));
    }
  }

  /** A comment is skipped, so the token after it lies beyond the comment's start. */
  lemma StallAtComment(p: string, k: nat, row: nat)
    requires k <= |p| && At(p, k) == '/' && At(p, k + 1) == '*'
    ensures var r := LexAt(p, k, row);
      r.Ok? && !r.value.token.kind.IsSentinel() ==> k < r.value.index
  {
    var e := CommentEnd(p, k + 2);
    if e.Some? {
      assert LexAt(p, k, row) == LexStep(p, e.value + 2, row);
    }
  }

  /**
   * The cursor stalls on a non-sentinel token exactly when it stands on a
   * `!` not followed by `=`; the row does not change then.
   */
  lemma {:induction false} StallOnlyAtLoneBang(p: string, i: nat, row: nat)
    requires i <= |p| + 1
    ensures var r := LexStep(p, i, row);
      (r.Ok? && !r.value.token.kind.IsSentinel() && r.value.index == i) <==>
      (At(p, i) == '!' && At(p, i + 1) != '=')
    ensures var r := LexStep(p, i, row);
      At(p, i) == '!' && At(p, i + 1) != '=' ==> r.Ok? && r.value.token.kind == Bang && r.value.row == row
  {
    if At(p, i) == '!' && At(p, i + 1) != '=' {
      LoneBangStep(p, i, row);
    } else if At(p, i) != '\0' {
      NoStallElsewhere(p, i, row);
    }
  }

  /** A lone `!` under the cursor comes back as a bang token with the cursor and row unchanged. */
  lemma LoneBangStep(p: string, i: nat, row: nat)
    requires i <= |p| + 1 && At(p, i) == '!' && At(p, i + 1) != '='
    ensures LexStep(p, i, row) == Ok(Lexed(SyntaxToken(Bang, "!", ToSize(i - 1), row, 1), i, row))
  {
    assert ScanWhile(p, i, IsNewline) == i;
    assert ScanWhile(p, i, IsSpace) == i;
    assert LexAt(p, i, row) == Ok(LexSymbol(p, i, row));
  }

  /** Anywhere else a non-sentinel token moves the cursor. */
  lemma NoStallElsewhere(p: string, i: nat, row: nat)
    requires i <= |p| + 1 && At(p, i) != '\0' && !(At(p, i) == '!' && At(p, i + 1) != '=')
    ensures var r := LexStep(p, i, row);
      r.Ok? && !r.value.token.kind.IsSentinel() ==> r.value.index != i
  {
    if At(p, i) == '!' {
      NoStallAtBangEqual(p, i, row);
    } else {
      NoStallOffBang(p, i, row);
    }
  }

  /** Off a `!`, the token after the blanks either moves the cursor or lies beyond them. */
  lemma NoStallOffBang(p: string, i: nat, row: nat)
    requires i <= |p| + 1 && At(p, i) != '\0' && At(p, i) != '!'
    ensures var r := LexStep(p, i, row);
      r.Ok? && !r.value.token.kind.IsSentinel() ==> r.value.index != i
  {
    var j := ScanWhile(p, i, IsNewline);
    var k := ScanWhile(p, j, IsSpace);
    var row' := row + (j - i);
    var c := At(p, k);
    assert LexStep(p, i, row) == LexAt(p, k, row');
    if IsDigit(c) {
      assert LexAt(p, k, row') == Ok(LexNumber(p, k, row'));
    } else if IsAlpha(c) || c == '_' {
      assert LexAt(p, k, row') == Ok(LexWord(p, k, row'));
    } else if c == '/' && At(p, k + 1) == '*' {
      StallAtComment(p, k, row');
    } else if c == '"' {
      assert LexAt(p, k, row') == LexString(p, k, row');
    } else {
      assert LexAt(p, k, row') == Ok(LexSymbol(p, k, row'));
    }
  }

  /** `!=` moves the cursor over both characters. */
  lemma NoStallAtBangEqual(p: string, i: nat, row: nat)
    requires i <= |p| + 1 && At(p, i) == '!' && At(p, i + 1) == '='
    ensures var r := LexStep(p, i, row);
      r.Ok? && r.value.index == i + 2
  {
    assert ScanWhile(p, i, IsNewline) == i;
    assert ScanWhile(p, i, IsSpace) == i;
    assert LexAt(p, i, row) == Ok(LexSymbol(p, i, row));
  }

  /** So a lone `!` makes the scan run forever. */
  lemma LoneBangDiverges()
    ensures Tokenize("!") == Fail(Diverges("lexer cursor stopped advancing"))
  {
    StallOnlyAtLoneBang("!", 0, 0);
  }
}
