# A verified model of the JavaFunctionalCpp front end

JavaFunctionalLib is a small front end and tree-walking interpreter for a
typed scripting language with `bool`, `short`, `int`, `long`, `float` and
`double` variables, `print`, `if`, blocks, compound assignments and
functions called for their effect. Its pipeline is:

- the **lexer** (`lexer.cpp`) turns the program text into tokens, closed by an end or bad token;
- the **parser** (`parser.cpp`) builds the syntax tree by recursive descent;
  - it keeps a scope stack of its own to pick the width of number literals;
  - it records declared functions in a shared **function table** (`functionmemory.cpp`);
- the **semantic checker** (`semantic.cpp`) computes width "witnesses" and reports unresolved names;
- the **interpreter** (`interpret.cpp`) evaluates the tree;
  - it uses a **scope stack** (`envstack.cpp`) of **environments** (`environment.cpp`);
  - it passes call arguments to the callee's block through a parameter buffer.

This project models each of these stages in Dafny and proves what each one does.

- **Modules.** Each source file is one module:
  - `Tokens`, `Variables`, `Lexing`, `Environments`, `EnvStacks` and `FunctionMemories`;
  - `ParserSpec` and `StatementSpec` with `Parsing`;
  - `Semantics`, `Values` and `Interpreting`;
  - `Outcomes` and `Ast` hold the shared datatypes.
- **Classes.** Where the source changes objects in place, the model is a class with the same fields:
  - the lexer's cursor and row counter;
  - the parser's cursor, error list, scope stack and function table;
  - the scope stack's vector, top index and lookup cursor;
  - the interpreter's buffer, runtime errors and console output.
- **Specifications.** Each class's methods are proved against a specification written as functions:
  - `LexStep`/`LexAllFrom` for the lexer;
  - the expression and statement grammars of `ParserSpec` and `StatementSpec` for the parser;
  - `CheckNode`/`Analysis` for the checker;
  - `Eval` for the interpreter.

  The properties the source promises are then proved about those functions.
- **Exceptions** become values (`Outcomes.Abrupt`):
  - a thrown `std::invalid_argument`, which the front end catches;
  - a `Crash` that nothing catches: the pointer thrown by `EnvStack::GetRef`, a null tree pointer dereferenced, or an integer trap;
  - a `Diverges` outcome for the loops that never end.
- **Console output** is an appended sequence.

Where the code's behaviour is surprising, the model follows the code:
- `FunctionCall` expects a second `)` after `Arguments` has consumed the closing one, so `f();` is reported (see "## Findings"); the parser's main line keeps that behaviour.
- In `ParseBinaryExpression`, `+ -` have the larger table value (6) and `* /` the smaller (4). A larger value is folded into the right operand, so `a * b + c` groups as `a * (b + c)`. Identifier-led expressions go through `ParseTerm`/`ParseFactor`, where `* /` bind tighter.
- Other surprises the model keeps:
  - an assignment does not update the variable;
  - a block never pops its scope;
  - a function's body is moved out of the table by its first call;
  - `==` yields the `int` 1 or 0;
  - a `bool` prints as `1` or `0`;
  - mixed integer widths are combined under C++'s conversions;
  - a lone `!` leaves the lexer's cursor in place, so the token loop never ends;
  - trailing whitespace ends the token list with a bad token instead of the end token.

## Model

| member | source | states |
|---|---|---|
| Tokens.UnaryPrecedenceTable | Referencias/JavaFunctionalCpp/JavaFunctionalLib/src/token.cpp:92-101 | only `+` and `-` are prefix operators, both at precedence 1; every other kind gets 0 |
| Tokens.BinaryPrecedenceTable | Referencias/JavaFunctionalCpp/JavaFunctionalLib/src/token.cpp:103-122 | the infix table has exactly three levels, for both directions of each: `== != && \|\|` at 2, `* /` at 4, `+ -` at 6, everything else 0 |
| Tokens.PrefixOperatorsAreInfix | Referencias/JavaFunctionalCpp/JavaFunctionalLib/src/token.cpp:92-122 | every prefix operator is also an infix operator, at a strictly higher precedence |
| Tokens.NameReadsBack | Referencias/JavaFunctionalCpp/JavaFunctionalLib/src/token.cpp:5-40 | each listed kind's diagnostic name identifies the kind uniquely; every unlisted kind reads back as the shared fallback |
| Tokens.TokenNameListed | Referencias/JavaFunctionalCpp/JavaFunctionalLib/src/token.cpp:36-39 | `TokenName` answers "Invalid Token" exactly for the kinds its switch does not list |
| Tokens.TokenNameCollisions | Referencias/JavaFunctionalCpp/JavaFunctionalLib/src/token.cpp:5-40 | two different kinds share a name only when both are unlisted and the name is "Invalid Token" |
| Tokens.SpellingReadsBack | Referencias/JavaFunctionalCpp/JavaFunctionalLib/src/token.cpp:42-88 | every kind `DisplayToken` spells is recovered from the spelling's length and its first and last characters |
| Tokens.DisplaySpellingsDistinct | Referencias/JavaFunctionalCpp/JavaFunctionalLib/src/token.cpp:42-88 | the source spellings of different kinds are pairwise distinct |
| Tokens.DisplayTokenFallback | Referencias/JavaFunctionalCpp/JavaFunctionalLib/src/token.cpp:89 | an unspelled kind gives its name plus " not found", and a kind is spelled exactly when its text has at most 6 characters |
| Tokens.ToSize | Referencias/JavaFunctionalCpp/JavaFunctionalLib/src/syntaxtoken.cpp:8-15 | a signed value stored in a `size_t` field is kept when in range and wraps modulo 2^64 otherwise (`-1` becomes 2^64 - 1) |
| Variables.FromToken | Referencias/JavaFunctionalCpp/JavaFunctionalLib/src/variable.cpp:3-22 | a kind names a valid data type exactly when it is one of the six type keywords |
| Variables.FromTokenInjective | Referencias/JavaFunctionalCpp/JavaFunctionalLib/src/variable.cpp:3-22 | the six type keywords map to six different data types |
| Variables.FromTokenBySpelling | Referencias/JavaFunctionalCpp/JavaFunctionalLib/src/variable.cpp:3-22 | each type keyword maps to the data type its spelling names (`bool` to `DT_BOOL`, and so on), both directions |
| Variables.DefaultsAreNotValid | Referencias/JavaFunctionalCpp/JavaFunctionalLib/src/variable.hpp:21-35 | a default-constructed `Variable` or `FuncVariable` has the type `DT_NOT_VALID` |
| Environments.Declare | Referencias/JavaFunctionalCpp/JavaFunctionalLib/src/environment.cpp:16-23 | `Set` fails exactly when the name is already bound, with the "already declared" message; otherwise it adds that one binding and keeps every other |
| Environments.Rebind | Referencias/JavaFunctionalCpp/JavaFunctionalLib/src/environment.cpp:25-34 | `Assign` fails exactly when the name is unbound, with the "not found" message; otherwise it replaces only that variable's value, keeping its type, its name and every other binding |
| Environments.DeclareThenFind | Referencias/JavaFunctionalCpp/JavaFunctionalLib/src/environment.cpp:7-23 | a variable just declared is found under its name, exactly as declared |
| Environments.DeclareTwiceFails | Referencias/JavaFunctionalCpp/JavaFunctionalLib/src/environment.cpp:16-23 | declaring the same name a second time fails with "already declared" |
| Environments.RebindTwice | Referencias/JavaFunctionalCpp/JavaFunctionalLib/src/environment.cpp:25-34 | assigning twice is the same as assigning the second value once |
| Environments.Environment.Get | Referencias/JavaFunctionalCpp/JavaFunctionalLib/src/environment.cpp:7-14 | returns the binding exactly when the name is bound, and changes nothing |
| Environments.Environment.Set | Referencias/JavaFunctionalCpp/JavaFunctionalLib/src/environment.cpp:16-23 | updates the map in place as `Declare` says, and leaves it unchanged on the error path |
| Environments.Environment.Assign | Referencias/JavaFunctionalCpp/JavaFunctionalLib/src/environment.cpp:25-34 | updates the map in place as `Rebind` says, and leaves it unchanged on the error path |
| EnvStacks.Innermost | Referencias/JavaFunctionalCpp/JavaFunctionalLib/src/envstack.cpp:25-39 | the scope a lookup from cursor `c` stops at: one at or below `c` that binds the name, with no scope between it and `c` binding it; none exactly when no scope at or below `c` binds it |
| EnvStacks.TopScopeShadows | Referencias/JavaFunctionalCpp/JavaFunctionalLib/src/envstack.cpp:25-39 | a binding in the top scope shadows every binding of the same name below it |
| EnvStacks.InnermostBelowPush | Referencias/JavaFunctionalCpp/JavaFunctionalLib/src/envstack.cpp:25-46 | a lookup starting below a pushed scope finds what it found before the push |
| EnvStacks.InnermostAfterPush | Referencias/JavaFunctionalCpp/JavaFunctionalLib/src/envstack.cpp:25-46 | after a push the new scope is searched first, and a lookup that misses it goes on to the old stack |
| EnvStacks.InnermostFindsAny | Referencias/JavaFunctionalCpp/JavaFunctionalLib/src/envstack.cpp:25-39 | a lookup succeeds exactly when some scope at or below the cursor binds the name |
| EnvStacks.EnvStack.GetScope | Referencias/JavaFunctionalCpp/JavaFunctionalLib/src/envstack.cpp:7-14 | `Get()` returns a copy of the scope under the cursor and moves the cursor one scope down; below the bottom it returns nothing and changes nothing |
| EnvStacks.EnvStack.GetRef | Referencias/JavaFunctionalCpp/JavaFunctionalLib/src/envstack.cpp:16-23 | returns the position of the scope under the cursor and moves the cursor down; below the bottom it throws the uncaught pointer |
| EnvStacks.EnvStack.GetVariable | Referencias/JavaFunctionalCpp/JavaFunctionalLib/src/envstack.cpp:25-39 | returns the binding and a copy of the scope `Innermost` picks, with the cursor back on the top; when no scope binds the name it throws "Variable Identifier ... not found." and leaves the cursor below the bottom |
| EnvStacks.EnvStack.Push | Referencias/JavaFunctionalCpp/JavaFunctionalLib/src/envstack.cpp:41-46 | the scope is appended as the new top and the cursor goes to it |
| EnvStacks.EnvStack.Pop | Referencias/JavaFunctionalCpp/JavaFunctionalLib/src/envstack.cpp:48-59 | removes and returns the top scope and resets the cursor; an empty stack gives nothing and is left as it was |
| EnvStacks.EnvStack.Add | Referencias/JavaFunctionalCpp/JavaFunctionalLib/src/envstack.cpp:61-74 | declares the variable in the scope under the cursor as `Declare` says and resets the cursor; a duplicate leaves the stack as it was and yields the printed message; with the cursor below the bottom the pointer escapes |
| EnvStacks.EnvStack.Assign | Referencias/JavaFunctionalCpp/JavaFunctionalLib/src/envstack.cpp:76-80 | the scopes never change, since only a dropped copy is rebound; the call fails exactly when the lookup does |
| EnvStacks.EnvStack.Reset | Referencias/JavaFunctionalCpp/JavaFunctionalLib/src/envstack.cpp:82-85 | the cursor goes back to the top scope and nothing else changes |
| EnvStacks.PushThenPop | Referencias/JavaFunctionalCpp/JavaFunctionalLib/src/envstack.cpp:41-59 | pushing a scope and popping it again returns that scope and leaves the stack as it was |
| EnvStacks.AddThenGet | Referencias/JavaFunctionalCpp/JavaFunctionalLib/src/envstack.cpp:25-74 | after adding a new name with the cursor on the top, looking it up returns exactly the variable added |
| FunctionMemories.MovedFrom | Referencias/JavaFunctionalCpp/JavaFunctionalLib/src/functionmemory.cpp:13-20 | the entry a `std::move` leaves behind keeps the return type and has an empty name, no body and no parameters |
| FunctionMemories.Pending | Referencias/JavaFunctionalCpp/JavaFunctionalLib/src/functionmemory.cpp:13-20 | the names whose stored definition still has a body, both directions |
| FunctionMemories.MoveOutShrinksPending | Referencias/JavaFunctionalCpp/JavaFunctionalLib/src/functionmemory.cpp:13-20 | moving a definition out takes exactly its name off the pending names |
| FunctionMemories.MoveOutIdempotent | Referencias/JavaFunctionalCpp/JavaFunctionalLib/src/functionmemory.cpp:13-20 | moving out an already moved-from entry changes nothing more |
| FunctionMemories.FunctionMemory.Add | Referencias/JavaFunctionalCpp/JavaFunctionalLib/src/functionmemory.cpp:4-11 | stores the definition under a new name; an existing name throws "already declared" and keeps its entry |
| FunctionMemories.FunctionMemory.Get | Referencias/JavaFunctionalCpp/JavaFunctionalLib/src/functionmemory.cpp:13-20 | returns the stored definition and leaves the moved-from entry under the same name; an unknown name throws "not declared" and changes nothing; the set of names never changes and the pending set loses that name |
| FunctionMemories.FunctionMemory.Exist | Referencias/JavaFunctionalCpp/JavaFunctionalLib/src/functionmemory.cpp:22-25 | true exactly when the name is in the table |
| FunctionMemories.GetTwice | Referencias/JavaFunctionalCpp/JavaFunctionalLib/src/functionmemory.cpp:13-20 | a second `Get` of a name succeeds but returns an entry with no body and no parameters, and with the first one's return type |
| Environments.Environment.constructor | Referencias/JavaFunctionalCpp/JavaFunctionalLib/src/environment.hpp:15-24 | a new environment binds no name |
| EnvStacks.EnvStack.constructor | Referencias/JavaFunctionalCpp/JavaFunctionalLib/src/envstack.hpp:13-17 | a new stack holds no scope, and both the top index and the cursor are -1 |
| FunctionMemories.FunctionMemory.constructor | Referencias/JavaFunctionalCpp/JavaFunctionalLib/src/functionmemory.hpp:14 | a new function table holds no definition |
| Interpreting.Interpreter.constructor | Referencias/JavaFunctionalCpp/JavaFunctionalLib/src/interpret.cpp:7-11 | the interpreter takes over the scope stack, shares the function table, and starts with no pending parameters, no runtime errors and no output |
| InterpreterProps.BothOrdersFail | Referencias/JavaFunctionalCpp/JavaFunctionalLib/src/interpret.cpp:216-272 | operands that are neither two numbers under an arithmetic or comparison operator nor two bools throw in either order |
| Lexing.ScanWhile | Referencias/JavaFunctionalCpp/JavaFunctionalLib/src/lexer.cpp:67-81 | a scan loop stops inside the text, on the first character that fails its test, or at the end |
| Lexing.ScanWhileRun | Referencias/JavaFunctionalCpp/JavaFunctionalLib/src/lexer.cpp:67-81 | every character a scan loop steps over passes its test |
| Lexing.CommentEnd | Referencias/JavaFunctionalCpp/JavaFunctionalLib/src/lexer.cpp:207-210 | a closer that is found is a `*/` at or after the comment's body start |
| Lexing.CommentEndFirst | Referencias/JavaFunctionalCpp/JavaFunctionalLib/src/lexer.cpp:207-210 | the closer found is the first `*/` of the body; with none found there is no `*/` at all |
| Lexing.FindQuote | Referencias/JavaFunctionalCpp/JavaFunctionalLib/src/lexer.cpp:262-265 | a closing quote that is found is a `"` at or after the string's start |
| Lexing.FindQuoteFirst | Referencias/JavaFunctionalCpp/JavaFunctionalLib/src/lexer.cpp:262-265 | the quote found is the first one; with none found there is no `"` at all |
| Lexing.KeywordAt | Referencias/JavaFunctionalCpp/JavaFunctionalLib/src/lexer.cpp:108-153 | the eleven keywords are compared in a fixed order, each a keyword kind |
| Lexing.KeywordRank | Referencias/JavaFunctionalCpp/JavaFunctionalLib/src/lexer.cpp:108-153 | every keyword kind has its place in that order |
| Lexing.FindKeyword | Referencias/JavaFunctionalCpp/JavaFunctionalLib/src/lexer.cpp:108-155 | the in-order comparison yields a keyword exactly spelled by the text, or none when no remaining keyword is spelled so |
| Lexing.KeywordOf | Referencias/JavaFunctionalCpp/JavaFunctionalLib/src/lexer.cpp:108-155 | a keyword found for a word is spelled exactly as the word |
| Lexing.KeywordReadsBack | Referencias/JavaFunctionalCpp/JavaFunctionalLib/src/lexer.cpp:108-153 | each keyword's own spelling is recognised as that keyword |
| Lexing.KeywordOfInOrder | Referencias/JavaFunctionalCpp/JavaFunctionalLib/src/lexer.cpp:108-155 | the keyword lookup agrees with comparing the word against the keywords one by one in the source's order |
| Lexing.LexNumber | Referencias/JavaFunctionalCpp/JavaFunctionalLib/src/lexer.cpp:76-94 | a number token stays inside the text, keeps the row, and consumes at least its first digit |
| Lexing.LexNumberDigits | Referencias/JavaFunctionalCpp/JavaFunctionalLib/src/lexer.cpp:76-94 | a number token's text begins with at least one digit |
| Lexing.LexWord | Referencias/JavaFunctionalCpp/JavaFunctionalLib/src/lexer.cpp:95-156 | a word token stays inside the text, is no sentinel, keeps the row and consumes at least its first character |
| Lexing.LexString | Referencias/JavaFunctionalCpp/JavaFunctionalLib/src/lexer.cpp:258-270 | a string that is closed yields a string token and moves the cursor past the opening quote |
| Lexing.LexSymbol | Referencias/JavaFunctionalCpp/JavaFunctionalLib/src/lexer.cpp:158-277 | an operator or punctuation token is never the end token; a bad token moves one step; the cursor stays put exactly on a `!` not followed by `=`, which gives a bang token |
| Lexing.LexAt | Referencias/JavaFunctionalCpp/JavaFunctionalLib/src/lexer.cpp:76-277 | after the blanks, a token other than a sentinel never moves the cursor backwards or past the text |
| Lexing.LexStep | Referencias/JavaFunctionalCpp/JavaFunctionalLib/src/lexer.cpp:61-277 | one call of `Lex` never moves the cursor more than one past the end, and a non-sentinel token leaves it inside the text and not behind where it started |
| Lexing.Lexer.constructor | Referencias/JavaFunctionalCpp/JavaFunctionalLib/src/lexer.cpp:8-11 | a new lexer starts at the first character on row 0 |
| Lexing.Lexer.LookAhead | Referencias/JavaFunctionalCpp/JavaFunctionalLib/src/lexer.cpp:23-32 | the character at an offset from the cursor, or NUL beyond the end |
| Lexing.Lexer.Advance | Referencias/JavaFunctionalCpp/JavaFunctionalLib/src/lexer.cpp:34-41 | the cursor moves one step unless it is at the end, and the row does not change |
| Lexing.Lexer.SkipWhitespace | Referencias/JavaFunctionalCpp/JavaFunctionalLib/src/lexer.cpp:67-75 | the newlines at the cursor are skipped and counted in the row; then every blank, later newlines included, is skipped without counting a row |
| Lexing.Lexer.LexNumberHere | Referencias/JavaFunctionalCpp/JavaFunctionalLib/src/lexer.cpp:76-94 | the token, cursor and row are those of `LexNumber` |
| Lexing.Lexer.LexWordHere | Referencias/JavaFunctionalCpp/JavaFunctionalLib/src/lexer.cpp:95-156 | the token, cursor and row are those of `LexWord` |
| Lexing.Lexer.LexStringHere | Referencias/JavaFunctionalCpp/JavaFunctionalLib/src/lexer.cpp:258-270 | the token, cursor and row are those of `LexString`, and an unclosed string is its divergence |
| Lexing.Lexer.SkipComment | Referencias/JavaFunctionalCpp/JavaFunctionalLib/src/lexer.cpp:202-212 | reports whether the comment has a closer, and when it has, leaves the cursor just after it |
| Lexing.Lexer.LexSymbolHere | Referencias/JavaFunctionalCpp/JavaFunctionalLib/src/lexer.cpp:158-277 | the token, cursor and row are those of `LexSymbol` |
| Lexing.Lexer.Lex | Referencias/JavaFunctionalCpp/JavaFunctionalLib/src/lexer.cpp:61-278 | the token, cursor and row are those of `LexStep` |
| Lexing.Lexer.LexHere | Referencias/JavaFunctionalCpp/JavaFunctionalLib/src/lexer.cpp:76-278 | the token, cursor and row are those of `LexAt` |
| Lexing.Lexer.LexAll | Referencias/JavaFunctionalCpp/JavaFunctionalLib/src/lexer.cpp:43-59 | the token list is the one `LexAllFrom` specifies, including its divergence cases |
| LexerProperties.EmptyProgram | Referencias/JavaFunctionalCpp/JavaFunctionalLib/src/lexer.cpp:63-66 | the empty program gives exactly one end token at position 0 |
| LexerProperties.EndTokenShape | Referencias/JavaFunctionalCpp/JavaFunctionalLib/src/lexer.cpp:63-66 | at NUL the end token carries the cursor as its position, row 0, and the row counter in its length slot |
| LexerProperties.LexAllWellFormed | Referencias/JavaFunctionalCpp/JavaFunctionalLib/src/lexer.cpp:43-59 | a scan that finishes ends with exactly one sentinel and holds none before it |
| LexerProperties.TokenizeWellFormed | Referencias/JavaFunctionalCpp/JavaFunctionalLib/src/lexer.cpp:43-59 | every program the lexer finishes yields a token list closed by its only sentinel |
| LexerProperties.KeywordExact | Referencias/JavaFunctionalCpp/JavaFunctionalLib/src/lexer.cpp:108-155 | a word is a keyword if and only if it spells one of the keywords exactly |
| LexerProperties.LongRunIsNoKeyword | Referencias/JavaFunctionalCpp/JavaFunctionalLib/src/lexer.cpp:108-155 | a word longer than six characters is never a keyword |
| LexerProperties.WordToken | Referencias/JavaFunctionalCpp/JavaFunctionalLib/src/lexer.cpp:95-156 | a word token spans a maximal run of letters, digits and underscores; it is the keyword the run spells, or an identifier holding the run |
| LexerProperties.PrintIfReturnIsOneIdentifier | Referencias/JavaFunctionalCpp/JavaFunctionalLib/src/lexer.cpp:95-156 | `printifreturn` is one identifier, not three keywords |
| LexerProperties.ScanToEnd | Referencias/JavaFunctionalCpp/JavaFunctionalLib/src/lexer.cpp:67-81 | a scan over characters that all pass the test reaches the end of the text |
| LexerProperties.OperatorPosition | Referencias/JavaFunctionalCpp/JavaFunctionalLib/src/lexer.cpp:158-273 | an operator token that moves the cursor is positioned at its first character, and its length is its spelling's length and the distance moved |
| LexerProperties.MaximalMunch | Referencias/JavaFunctionalCpp/JavaFunctionalLib/src/lexer.cpp:158-256 | a shorter operator is chosen only when no longer one is spelled; `+++` is one token; `&` and `\|` make a token exactly when doubled |
| LexerProperties.NumberShape | Referencias/JavaFunctionalCpp/JavaFunctionalLib/src/lexer.cpp:76-94 | a number token is a maximal digit run, verbatim, positioned at its first digit; with no fraction nothing numeric follows it |
| LexerProperties.NumberFraction | Referencias/JavaFunctionalCpp/JavaFunctionalLib/src/lexer.cpp:83-90 | the token goes on past the digit run exactly when a dot follows it, and then over the digit run after the dot |
| LexerProperties.StringInterior | Referencias/JavaFunctionalCpp/JavaFunctionalLib/src/lexer.cpp:258-270 | a string lexes if and only if a closing quote follows; its token is the quote-free text between the quotes, positioned after the opening one |
| LexerProperties.CommentSkipped | Referencias/JavaFunctionalCpp/JavaFunctionalLib/src/lexer.cpp:202-214 | a closed comment is skipped and lexing resumes right after it; an unclosed one never ends |
| LexerProperties.CommentThenNumber | Referencias/JavaFunctionalCpp/JavaFunctionalLib/src/lexer.cpp:202-214 | `/* a */ 1` lexes to the number alone followed by the end token |
| LexerProperties.LoneAmpersandIsBad | Referencias/JavaFunctionalCpp/JavaFunctionalLib/src/lexer.cpp:243-256 | a single `&` or `\|` gives the bad token one step on |
| LexerProperties.TrailingWhitespaceIsBad | Referencias/JavaFunctionalCpp/JavaFunctionalLib/src/lexer.cpp:61-75 | trailing blanks are not the end of the text: the end check comes first, so the scan ends in a bad token one past the end |
| LexerProperties.TrailingSpaceExample | Referencias/JavaFunctionalCpp/JavaFunctionalLib/src/lexer.cpp:61-75 | `1 ` lexes to the number followed by the bad token, not the end token |
| LexerProperties.StallAt | Referencias/JavaFunctionalCpp/JavaFunctionalLib/src/lexer.cpp:76-277 | after the blanks, a non-sentinel token never moves the cursor backwards, and leaves it in place only on a lone `!` |
| LexerProperties.StallOnlyAtLoneBang | Referencias/JavaFunctionalCpp/JavaFunctionalLib/src/lexer.cpp:236-242 | one call of `Lex` leaves the cursor in place on a non-sentinel token if and only if the cursor is on a `!` not followed by `=`; the token is then a bang |
| LexerProperties.NoStallElsewhere | Referencias/JavaFunctionalCpp/JavaFunctionalLib/src/lexer.cpp:61-277 | anywhere but on a lone `!`, a non-sentinel token moves the cursor |
| LexerProperties.NoStallAtBangEqual | Referencias/JavaFunctionalCpp/JavaFunctionalLib/src/lexer.cpp:236-241 | `!=` moves the cursor over both characters |
| LexerProperties.LoneBangDiverges | Referencias/JavaFunctionalCpp/JavaFunctionalLib/src/lexer.cpp:43-59 | a lone `!` makes the scan loop repeat forever |
| ParserSpec.TokenAt | Referencias/JavaFunctionalCpp/JavaFunctionalLib/src/parser.cpp:88-96 | a look-ahead inside the token vector reads that token; any position outside it reads the last token |
| ParserSpec.TypedLiteral | Referencias/JavaFunctionalCpp/JavaFunctionalLib/src/parser.cpp:561-582 | a literal assigned to a declared variable gets the number kind of the variable's type; the integral kinds succeed exactly when `stoi` does and fail with its exception, and hold `stoi`'s value truncated to the width (`(short)stoi` keeps the low 16 bits); the floating kinds succeed exactly when `StoFloat` does, hold the literal's text, and otherwise fail as `StoFloat` does (an uncaught `std::out_of_range` past the range) |
| ParserSpec.ShortLiteralWraps | Referencias/JavaFunctionalCpp/JavaFunctionalLib/src/parser.cpp:568-569 | a `short` literal of 40000 holds -25536 |
| ParserSpec.FloatLiteralOutOfRange | Referencias/JavaFunctionalCpp/JavaFunctionalLib/src/parser.cpp:575-576 | `float f = 400000000000000000000000000000000000000;` makes `TypedLiteral` fail with the crash `stof` causes: the value is past FLT_MAX and nothing catches `std::out_of_range` |
| Values.StoFloat | Referencias/JavaFunctionalCpp/JavaFunctionalLib/src/parser.cpp:576-578 | `stof`/`stod` of a decimal literal yields the literal's text when it succeeds; a failure is always a crash (out of range) or a case left unmodelled, never a catchable `invalid_argument` |
| Values.StoFloatDigits | Referencias/JavaFunctionalCpp/JavaFunctionalLib/src/parser.cpp:576-588 | for a decimal literal whose integer part has at most 38 (`float`) or 308 (`double`) significant digits, and whose fraction does not start with too many zeros, the conversion succeeds; with two more digits than that it crashes out of range; and any success has at most one digit more than that |
| Values.FloatLiteralTooLarge | Referencias/JavaFunctionalCpp/JavaFunctionalLib/src/parser.cpp:576 | `stof` of a literal whose integer part is 4·10^38 crashes out of range |
| ParserSpec.PlainLiteral | Referencias/JavaFunctionalCpp/JavaFunctionalLib/src/parser.cpp:583-590 | a literal with a dot is a `double` exactly when `stod` accepts it (`StoFloat`), and otherwise fails as `StoFloat` does; one without is an `int` exactly when `stoi` accepts it, and otherwise fails with `stoi`'s exception |
| ParserSpec.TypeRank | Referencias/JavaFunctionalCpp/JavaFunctionalLib/src/parser.cpp:118-146 | the six type keywords are tried in a fixed order, each at its own rank; every other kind ranks after all of them |
| ParserSpec.TypeEnd | Referencias/JavaFunctionalCpp/JavaFunctionalLib/src/parser.cpp:118-146 | the type-keyword attempts never move the cursor backwards or onto a position past the sentinel |
| ParserSpec.TypeEndLast | Referencias/JavaFunctionalCpp/JavaFunctionalLib/src/parser.cpp:118-146 | when the type attempts consume anything, the last token they consumed is a type keyword |
| ParserSpec.TypeEndFacts | Referencias/JavaFunctionalCpp/JavaFunctionalLib/src/parser.cpp:118-146 | a type is found exactly when the cursor starts on a type keyword; what is found is a type keyword; a lone type keyword is consumed by itself |
| ParserSpec.NumberLiteralAt | Referencias/JavaFunctionalCpp/JavaFunctionalLib/src/parser.cpp:561-590 | a number literal that parses becomes a number node and consumes exactly its own token |
| ParserSpec.DeclaredTypeIsInnermost | Referencias/JavaFunctionalCpp/JavaFunctionalLib/src/envstack.cpp:25-38 | the type a literal is read for is that of the binding in the highest scope holding the name |
| ParserSpec.NumberLiteralWidth | Referencias/JavaFunctionalCpp/JavaFunctionalLib/src/parser.cpp:561-590 | after `identifier =` a literal is read for the innermost declared type of that identifier (`TypedLiteral`), and fails with "not found" when no scope declares it; anywhere else it is `PlainLiteral`: an `int`, or a `double` when it holds a dot |
| ParserSpec.Primary | Referencias/JavaFunctionalCpp/JavaFunctionalLib/src/parser.cpp:554-613 | a primary consumes at most the token at the cursor, yields the null node exactly when it consumes nothing, and can fail only on a number literal |
| ParserSpec.Expr | Referencias/JavaFunctionalCpp/JavaFunctionalLib/src/parser.cpp:486-552 | every expression rule stays inside the tokens; a full rule yields the null node exactly when it consumes nothing; a loop rule that consumes nothing returns its left operand and otherwise builds a binary node |
| Environments.SeedPrefixFails | Referencias/JavaFunctionalCpp/JavaFunctionalLib/src/parser.cpp:358-362 | once seeding a block's scope with its parameters fails on some prefix, the whole seeding fails with that same exception |
| Environments.SeedBindsParameters | Referencias/JavaFunctionalCpp/JavaFunctionalLib/src/parser.cpp:358-362 | with distinct parameter names, the block's first scope binds exactly those names, each to its own parameter |
| Environments.SeedFailsOnRepeat | Referencias/JavaFunctionalCpp/JavaFunctionalLib/src/parser.cpp:358-362 | seeding succeeds if and only if the parameter names are distinct, and a failure is the "already declared" exception for one of the parameters |
| StatementSpec.ExpectAt | Referencias/JavaFunctionalCpp/JavaFunctionalLib/src/parser.cpp:98-107 | an expectation never moves the cursor backwards or past the sentinel |
| StatementSpec.Expression | Referencias/JavaFunctionalCpp/JavaFunctionalLib/src/parser.cpp:461-476 | an expression that parses stays inside the tokens, and one that consumes nothing is the null node; `identifier (` goes to the call as written (`CallAsWritten`) |
| StatementSpec.Grouped | Referencias/JavaFunctionalCpp/JavaFunctionalLib/src/parser.cpp:478-484 | a parenthesised group that parses consumes at least its `(` |
| StatementSpec.Call | Referencias/JavaFunctionalCpp/JavaFunctionalLib/src/parser.cpp:296-302 | the intended call, with the closing parenthesis expected once: a call that parses consumes at least its name |
| StatementSpec.AfterArgument | Referencias/JavaFunctionalCpp/JavaFunctionalLib/src/parser.cpp:344-348 | what follows an argument never moves the cursor backwards or past the sentinel |
| StatementSpec.ArgumentList | Referencias/JavaFunctionalCpp/JavaFunctionalLib/src/parser.cpp:337-352 | an argument list that parses consumes at least its closing `)` |
| StatementSpec.ArgumentListGoesOn | Referencias/JavaFunctionalCpp/JavaFunctionalLib/src/parser.cpp:341-349 | an argument that moves the cursor is appended to the arguments, with its reports, and the loop continues after it |
| StatementSpec.ArgumentListStops | Referencias/JavaFunctionalCpp/JavaFunctionalLib/src/parser.cpp:341-350 | the argument loop ends on `)` with the arguments so far, on an exception with that exception, and on an iteration that consumes nothing with the divergence outcome |
| StatementSpec.Assignment | Referencias/JavaFunctionalCpp/JavaFunctionalLib/src/parser.cpp:404-459 | an assignment statement that parses stays inside the tokens, and one that consumes nothing is the null node |
| StatementSpec.AssignmentIncrement | Referencias/JavaFunctionalCpp/JavaFunctionalLib/src/parser.cpp:408-425 | `x++`, `x+++` and `x--` become the assignment of `x` plus or minus an `int` literal, followed by an expected `;` |
| StatementSpec.AssignmentValue | Referencias/JavaFunctionalCpp/JavaFunctionalLib/src/parser.cpp:426-456 | after `=` or a compound operator the assignment is built from the expression that follows |
| StatementSpec.AssignmentTerm | Referencias/JavaFunctionalCpp/JavaFunctionalLib/src/parser.cpp:457-458 | an identifier with no assignment operator after it is parsed as a term from the identifier itself |
| StatementSpec.CallAsWritten | Referencias/JavaFunctionalCpp/JavaFunctionalLib/src/parser.cpp:296-302 | a call, with the closing parenthesis expected a second time after the argument list, consumes at least its name when it parses |
| StatementSpec.AddVariable | Referencias/JavaFunctionalCpp/JavaFunctionalLib/src/envstack.cpp:61-74 | adding a variable fails exactly on a stack with no scope; otherwise only the top scope changes and it then holds the name |
| StatementSpec.TypedName | Referencias/JavaFunctionalCpp/JavaFunctionalLib/src/parser.cpp:379-392 | a typed name that parses consumes at least one token, and its type is a type keyword |
| StatementSpec.NameAfterType | Referencias/JavaFunctionalCpp/JavaFunctionalLib/src/parser.cpp:383-388 | after the type attempts the name parses exactly when a type was found, and the type is the last keyword consumed |
| StatementSpec.Parameter | Referencias/JavaFunctionalCpp/JavaFunctionalLib/src/parser.cpp:308-318 | a formal parameter that parses consumes at least one token |
| StatementSpec.ParameterList | Referencias/JavaFunctionalCpp/JavaFunctionalLib/src/parser.cpp:320-334 | the parameter loop never moves the cursor backwards or past the sentinel |
| StatementSpec.ParameterListStep | Referencias/JavaFunctionalCpp/JavaFunctionalLib/src/parser.cpp:320-333 | one round of the parameter loop: a failing parameter ends the loop with its exception, a parsed one is appended and the loop goes on after it |
| StatementSpec.FormalParameters | Referencias/JavaFunctionalCpp/JavaFunctionalLib/src/parser.cpp:304-335 | the formal parameter list never moves the cursor backwards or past the sentinel |
| StatementSpec.FunctionHeader | Referencias/JavaFunctionalCpp/JavaFunctionalLib/src/parser.cpp:269-279 | a function header that parses consumes at least one token |
| StatementSpec.OptionalParameters | Referencias/JavaFunctionalCpp/JavaFunctionalLib/src/parser.cpp:282-286 | the optional parameter list never moves the cursor backwards or past the sentinel |
| StatementSpec.Signature | Referencias/JavaFunctionalCpp/JavaFunctionalLib/src/parser.cpp:281-287 | the parenthesised parameter list never moves the cursor backwards or past the sentinel |
| StatementSpec.Print | Referencias/JavaFunctionalCpp/JavaFunctionalLib/src/parser.cpp:236-245 | a print statement that parses consumes at least `print` and is a print node |
| StatementSpec.VariableDeclaration | Referencias/JavaFunctionalCpp/JavaFunctionalLib/src/parser.cpp:379-402 | a variable declaration that parses consumes at least one token and is a declaration node |
| StatementSpec.Declared | Referencias/JavaFunctionalCpp/JavaFunctionalLib/src/parser.cpp:389-401 | once the variable is added, a declaration that parses is a declaration node and stays inside the tokens; no scope is popped and no binding is lost |
| ParserProps.DeclaredBeforeInitializer | Referencias/JavaFunctionalCpp/JavaFunctionalLib/src/parser.cpp:391-397 | the variable is in the top scope, with its declared type, before the initializer is parsed, so a literal initializer takes the declared width; a duplicate name leaves the scopes as they were |
| StatementSpec.Initializer | Referencias/JavaFunctionalCpp/JavaFunctionalLib/src/parser.cpp:394-401 | the optional initializer and the `;` yield a declaration node |
| StatementSpec.Initialized | Referencias/JavaFunctionalCpp/JavaFunctionalLib/src/parser.cpp:395-401 | an initializer after `=` and the `;` yield a declaration node |
| StatementSpec.Statement | Referencias/JavaFunctionalCpp/JavaFunctionalLib/src/parser.cpp:202-223 | a statement that parses stays inside the tokens, and one that consumes nothing is the null node |
| StatementSpec.Declaration | Referencias/JavaFunctionalCpp/JavaFunctionalLib/src/parser.cpp:247-265 | a declaration that parses stays inside the tokens, and one that consumes nothing is the null node |
| StatementSpec.FunctionDeclaration | Referencias/JavaFunctionalCpp/JavaFunctionalLib/src/parser.cpp:267-294 | a function declaration that parses consumes at least one token and yields the null node |
| StatementSpec.FunctionBody | Referencias/JavaFunctionalCpp/JavaFunctionalLib/src/parser.cpp:289-293 | a function whose body parses is in the function table afterwards, and the statement yields the null node |
| StatementSpec.If | Referencias/JavaFunctionalCpp/JavaFunctionalLib/src/parser.cpp:225-234 | an `if` statement that parses consumes at least `if` and is an if node |
| StatementSpec.IfThen | Referencias/JavaFunctionalCpp/JavaFunctionalLib/src/parser.cpp:230-233 | the `)` and the block after the condition yield an if node |
| StatementSpec.Block | Referencias/JavaFunctionalCpp/JavaFunctionalLib/src/parser.cpp:354-377 | a block that parses is a block node and stays inside the tokens; the stack afterwards holds the caller's scopes and, above them, the scope seeded with the parameters, which is never popped (scopes only gain bindings) |
| StatementSpec.BlockBody | Referencias/JavaFunctionalCpp/JavaFunctionalLib/src/parser.cpp:365-376 | the statement loop of a block and its `}` yield a block node |
| ParserProps.ClimbSingle | Referencias/JavaFunctionalCpp/JavaFunctionalLib/src/parser.cpp:486-515 | a climb over one operand followed by no operator binding tighter than the caller's level returns that operand |
| ParserProps.ClimbAfterOperand | Referencias/JavaFunctionalCpp/JavaFunctionalLib/src/parser.cpp:486-515 | a climb that starts on a plain operand continues its loop with that operand as the left side |
| ParserProps.ClimbGroupsRight | Referencias/JavaFunctionalCpp/JavaFunctionalLib/src/parser.cpp:486-515 | in `a op1 b op2 c`, an `op2` with a larger table value than `op1` nests to the right, so `a * b + c` is `a * (b + c)` |
| ParserProps.ClimbGroupsLeft | Referencias/JavaFunctionalCpp/JavaFunctionalLib/src/parser.cpp:486-515 | in `a op1 b op2 c`, an `op2` with a table value no larger than `op1`'s nests to the left, so equal levels associate to the left |
| ParserProps.FactorSingle | Referencias/JavaFunctionalCpp/JavaFunctionalLib/src/parser.cpp:529-541 | a factor of one operand not followed by `*` or `/` is that operand |
| ParserProps.FactorPair | Referencias/JavaFunctionalCpp/JavaFunctionalLib/src/parser.cpp:529-541 | a factor of two operands joined by `*` or `/` is the binary node of the two |
| ParserProps.TermGroupsFactorRight | Referencias/JavaFunctionalCpp/JavaFunctionalLib/src/parser.cpp:517-541 | on the term ladder `a + b * c` groups as `a + (b * c)` |
| ParserProps.TermGroupsFactorLeft | Referencias/JavaFunctionalCpp/JavaFunctionalLib/src/parser.cpp:517-541 | on the term ladder `a * b + c` groups as `(a * b) + c` |
| ParserProps.IncrementsDesugar | Referencias/JavaFunctionalCpp/JavaFunctionalLib/src/parser.cpp:408-425 | `x++;`, `x+++;` and `x--;` parse as `x = x + 1`, `x = x + 2` and `x = x - 1` with `int` literals and consume the semicolon, reporting nothing |
| ParserProps.CompoundAssignmentsDesugar | Referencias/JavaFunctionalCpp/JavaFunctionalLib/src/parser.cpp:426-456 | `x op= e;` parses as `x = x op e` and `x = e;` as itself, each consuming the semicolon after `e` |
| ParserProps.ParseKeepsNonNull | Referencias/JavaFunctionalCpp/JavaFunctionalLib/src/parser.cpp:169-190 | the statement list only grows and never holds a null statement: a null statement ends the loop |
| ParserProps.FunctionDeclarationEndsParse | Referencias/JavaFunctionalCpp/JavaFunctionalLib/src/parser.cpp:176-180 | a top-level function declaration yields the null statement, so the parse returns only what came before it |
| ParserProps.CallAsWrittenWantsTwoParens | Referencias/JavaFunctionalCpp/JavaFunctionalLib/src/parser.cpp:296-302 | as written, a call adds a report exactly when it is not followed by a second `)`, and otherwise swallows that `)` |
| ParserProps.EmptyCallRejectedAsWritten | Referencias/JavaFunctionalCpp/JavaFunctionalLib/src/parser.cpp:296-302 | `f();` is parsed as written by the expression parser, which reports that a `)` was expected where the `;` is |
| ParserProps.CallReadsItsArguments | Referencias/JavaFunctionalCpp/JavaFunctionalLib/src/parser.cpp:296-302 | for the intended `Call`, `f()` is a call of no arguments ending after its `)` with no report, and `f(e)` passes `e` |
| Parsing.Parser.constructor | Referencias/JavaFunctionalCpp/JavaFunctionalLib/src/parser.cpp:14-23 | a new parser starts on the first token with no reports, over the given tokens, scope stack and function table |
| Parsing.Parser.LookAhead | Referencias/JavaFunctionalCpp/JavaFunctionalLib/src/parser.cpp:88-96 | the token at an offset from the cursor, or the last token when the offset leaves the vector |
| Parsing.Parser.Match | Referencias/JavaFunctionalCpp/JavaFunctionalLib/src/parser.cpp:148-155 | true exactly when the current token has the given kind |
| Parsing.Parser.MatchAny | Referencias/JavaFunctionalCpp/JavaFunctionalLib/src/parser.cpp:157-167 | true exactly when the current token has one of the given kinds |
| Parsing.Parser.IsAtEnd | Referencias/JavaFunctionalCpp/JavaFunctionalLib/src/parser.cpp:35-44 | true exactly on the end token or a bad token, and always on the last token |
| Parsing.Parser.NextToken | Referencias/JavaFunctionalCpp/JavaFunctionalLib/src/parser.cpp:25-33 | returns the current token and moves the cursor one step, reporting nothing |
| Parsing.Parser.Advance | Referencias/JavaFunctionalCpp/JavaFunctionalLib/src/parser.cpp:46-53 | moves the cursor one step, reporting nothing |
| Parsing.Parser.Back | Referencias/JavaFunctionalCpp/JavaFunctionalLib/src/parser.cpp:80-86 | moves the cursor one step back, except on the first token |
| Parsing.Parser.Report | Referencias/JavaFunctionalCpp/JavaFunctionalLib/src/parser.cpp:192-195 | appends the message to the reports and leaves the cursor alone |
| Parsing.Parser.Expect | Referencias/JavaFunctionalCpp/JavaFunctionalLib/src/parser.cpp:98-107 | a token of the expected kind is returned and consumed; any other is left in place, a placeholder is returned and "Expected" with the kind's name is reported |
| Parsing.Parser.ExpectOptional | Referencias/JavaFunctionalCpp/JavaFunctionalLib/src/parser.cpp:109-116 | a token of the given kind is returned and consumed; any other is left in place without a report |
| Parsing.Parser.TypeAttempt | Referencias/JavaFunctionalCpp/JavaFunctionalLib/src/parser.cpp:118-146 | one of the six type attempts: its keyword is consumed and becomes the answer when it is at the cursor; otherwise nothing changes |
| Parsing.Parser.FindVarType | Referencias/JavaFunctionalCpp/JavaFunctionalLib/src/parser.cpp:118-146 | the type attempts end where `TypeEnd` says; a type is found exactly when something is consumed, and it is the last token consumed |
| Parsing.Parser.ParsePrimary | Referencias/JavaFunctionalCpp/JavaFunctionalLib/src/parser.cpp:554-613 | the node, the failure and the end position are those of `ParserSpec.Primary`, with no report |
| Parsing.Parser.ParseNumberLiteral | Referencias/JavaFunctionalCpp/JavaFunctionalLib/src/parser.cpp:561-590 | the node, the failure and the end position are those of `ParserSpec.NumberLiteralAt` |
| Parsing.Parser.ParseBinaryExpression | Referencias/JavaFunctionalCpp/JavaFunctionalLib/src/parser.cpp:486-515 | the node, the failure and the end position are those of the climbing specification, with no report |
| Parsing.Parser.ParseClimbOperand | Referencias/JavaFunctionalCpp/JavaFunctionalLib/src/parser.cpp:490-500 | the first operand of a climb is the one the climbing specification gives: a prefix operator over a nested climb, or a primary |
| Parsing.Parser.ClimbOperator | Referencias/JavaFunctionalCpp/JavaFunctionalLib/src/parser.cpp:502-512 | one iteration of the climbing loop consumes tokens and leaves the rest of the loop's specified result unchanged |
| Parsing.Parser.ParseUnary | Referencias/JavaFunctionalCpp/JavaFunctionalLib/src/parser.cpp:543-552 | the node, the failure and the end position are those of the unary specification |
| Parsing.Parser.ParseFactor | Referencias/JavaFunctionalCpp/JavaFunctionalLib/src/parser.cpp:529-541 | the node, the failure and the end position are those of the factor specification |
| Parsing.Parser.FactorOperand | Referencias/JavaFunctionalCpp/JavaFunctionalLib/src/parser.cpp:533-538 | one iteration of the factor loop consumes tokens and leaves the rest of the loop's specified result unchanged |
| Parsing.Parser.ParseTerm | Referencias/JavaFunctionalCpp/JavaFunctionalLib/src/parser.cpp:517-527 | the node, the failure and the end position are those of the term specification |
| Parsing.Parser.TermOperand | Referencias/JavaFunctionalCpp/JavaFunctionalLib/src/parser.cpp:520-525 | one iteration of the term loop consumes tokens and leaves the rest of the loop's specified result unchanged |
| Parsing.Parser.ParseExpression | Referencias/JavaFunctionalCpp/JavaFunctionalLib/src/parser.cpp:461-476 | the node, the reports and the end position are those of `StatementSpec.Expression` |
| Parsing.Parser.Group | Referencias/JavaFunctionalCpp/JavaFunctionalLib/src/parser.cpp:478-484 | the node, the reports and the end position are those of `StatementSpec.Grouped` |
| Parsing.Parser.FunctionCall | Referencias/JavaFunctionalCpp/JavaFunctionalLib/src/parser.cpp:296-302 | the node, the reports and the end position are those of `StatementSpec.CallAsWritten`: the name, the arguments with their `)`, and a second `Expect(CloseParen)` |
| Parsing.Parser.Arguments | Referencias/JavaFunctionalCpp/JavaFunctionalLib/src/parser.cpp:337-352 | after the expected `(`, the arguments, the reports and the end position are those of `StatementSpec.ArgumentList` |
| Parsing.Parser.NextArgument | Referencias/JavaFunctionalCpp/JavaFunctionalLib/src/parser.cpp:343-348 | one iteration of the argument loop, in the relation `OneArgument` that `ArgumentListStep` turns into progress of the loop |
| Parsing.Parser.VarAssignmentStatement | Referencias/JavaFunctionalCpp/JavaFunctionalLib/src/parser.cpp:404-459 | the node, the reports and the end position are those of `StatementSpec.Assignment` |
| Parsing.Parser.Incremented | Referencias/JavaFunctionalCpp/JavaFunctionalLib/src/parser.cpp:408-425 | the increment branches agree with `StatementSpec.Assignment` from the identifier |
| Parsing.Parser.AssignedValue | Referencias/JavaFunctionalCpp/JavaFunctionalLib/src/parser.cpp:426-456 | the `=` and compound branches agree with the assignment built from the following expression |
| Parsing.Parser.AssignmentAsTerm | Referencias/JavaFunctionalCpp/JavaFunctionalLib/src/parser.cpp:457-458 | the fall-through branch agrees with `StatementSpec.Assignment` from the identifier |
| Parsing.Parser.TypedNameClause | Referencias/JavaFunctionalCpp/JavaFunctionalLib/src/parser.cpp:381-388 | the type, the name, the reports and the end position are those of `StatementSpec.TypedName` |
| Parsing.Parser.NameAfterTypeClause | Referencias/JavaFunctionalCpp/JavaFunctionalLib/src/parser.cpp:383-388 | after the type attempts, the name and the missing-type exception are those of `StatementSpec.NameAfterType` |
| Parsing.Parser.ParameterClause | Referencias/JavaFunctionalCpp/JavaFunctionalLib/src/parser.cpp:308-318 | one formal parameter as `StatementSpec.Parameter` gives it |
| Parsing.Parser.Parameters | Referencias/JavaFunctionalCpp/JavaFunctionalLib/src/parser.cpp:304-335 | the parameters, the reports and the end position are those of `StatementSpec.FormalParameters` |
| Parsing.Parser.MoreParameters | Referencias/JavaFunctionalCpp/JavaFunctionalLib/src/parser.cpp:320-333 | the parameter loop agrees with `StatementSpec.ParameterList` |
| Parsing.Parser.NextParameter | Referencias/JavaFunctionalCpp/JavaFunctionalLib/src/parser.cpp:322-332 | one round of the parameter loop: a failure ends the loop's specified result, a parameter continues it |
| Parsing.Parser.FunctionHeaderClause | Referencias/JavaFunctionalCpp/JavaFunctionalLib/src/parser.cpp:269-279 | the return type and name agree with `StatementSpec.FunctionHeader` |
| Parsing.Parser.SignatureClause | Referencias/JavaFunctionalCpp/JavaFunctionalLib/src/parser.cpp:281-287 | the parenthesised parameter list agrees with `StatementSpec.Signature` |
| Parsing.Parser.MaybeParameters | Referencias/JavaFunctionalCpp/JavaFunctionalLib/src/parser.cpp:282-286 | the optional parameter list agrees with `StatementSpec.OptionalParameters` |
| Parsing.Parser.ParsePrintStatement | Referencias/JavaFunctionalCpp/JavaFunctionalLib/src/parser.cpp:236-245 | the node, the reports, the scopes, the function table and the end position are those of `StatementSpec.Print` |
| Parsing.Parser.VarDeclarationStatement | Referencias/JavaFunctionalCpp/JavaFunctionalLib/src/parser.cpp:379-402 | the node and the whole new state are those of `StatementSpec.VariableDeclaration`, the variable being added before its initializer is read |
| Parsing.Parser.DeclaredVariable | Referencias/JavaFunctionalCpp/JavaFunctionalLib/src/parser.cpp:389-401 | adding the variable and reading the initializer agree with `StatementSpec.Declared` |
| Parsing.Parser.VarInitializer | Referencias/JavaFunctionalCpp/JavaFunctionalLib/src/parser.cpp:394-401 | the optional initializer and `;` agree with `StatementSpec.Initializer` |
| Parsing.Parser.InitialValue | Referencias/JavaFunctionalCpp/JavaFunctionalLib/src/parser.cpp:395-401 | the initializer after `=` and `;` agree with `StatementSpec.Initialized` |
| Parsing.Parser.FunctionDeclarationStatement | Referencias/JavaFunctionalCpp/JavaFunctionalLib/src/parser.cpp:267-294 | the node and the whole new state, the function table included, are those of `StatementSpec.FunctionDeclaration` |
| Parsing.Parser.FunctionBodyClause | Referencias/JavaFunctionalCpp/JavaFunctionalLib/src/parser.cpp:289-293 | the body block and the table entry agree with `StatementSpec.FunctionBody` |
| Parsing.Parser.ParseIfStatement | Referencias/JavaFunctionalCpp/JavaFunctionalLib/src/parser.cpp:225-234 | the node and the whole new state are those of `StatementSpec.If` |
| Parsing.Parser.IfThenClause | Referencias/JavaFunctionalCpp/JavaFunctionalLib/src/parser.cpp:230-233 | the `)` and the block agree with `StatementSpec.IfThen` |
| Parsing.Parser.DeclarationStatement | Referencias/JavaFunctionalCpp/JavaFunctionalLib/src/parser.cpp:247-265 | the node and the whole new state are those of `StatementSpec.Declaration` |
| Parsing.Parser.ParseStatement | Referencias/JavaFunctionalCpp/JavaFunctionalLib/src/parser.cpp:202-223 | the node and the whole new state are those of `StatementSpec.Statement` |
| Parsing.Parser.ParseBlockStatement | Referencias/JavaFunctionalCpp/JavaFunctionalLib/src/parser.cpp:354-377 | the node and the whole new state are those of `StatementSpec.Block`: a scope seeded with the parameters is pushed before the statements |
| Environments.BlockScope | Referencias/JavaFunctionalCpp/JavaFunctionalLib/src/parser.cpp:358-362 | the scope a block starts with, in the parser and in the interpreter (interpret.cpp:201-207), is `Seed` of the parameters |
| Parsing.Parser.BlockStatements | Referencias/JavaFunctionalCpp/JavaFunctionalLib/src/parser.cpp:365-376 | the statement loop and the `}` agree with `StatementSpec.BlockBody` |
| Parsing.Parser.Parse | Referencias/JavaFunctionalCpp/JavaFunctionalLib/src/parser.cpp:169-190 | the statements and the whole new state are those of `StatementSpec.ParseFrom`, whose properties `ParserProps.ParseKeepsNonNull` and `ParserProps.FunctionDeclarationEndsParse` state |
| Parsing.NewParser | Referencias/JavaFunctionalCpp/JavaFunctionalLib/src/parser.cpp:14-23 | a parser exists exactly when the program tokenizes, over those tokens, starting at the first with no reports, on a fresh scope stack holding the caller's scopes and on the caller's function table; a lexer failure is passed on |
| Semantics.Unit | Referencias/JavaFunctionalCpp/JavaFunctionalLib/src/semantic.cpp:34-53 | `(T)1` has the width `T`, and an integral one holds 1 |
| Semantics.NumberWitness | Referencias/JavaFunctionalCpp/JavaFunctionalLib/src/semantic.cpp:71-97 | a number literal's witness has the literal's own width |
| Semantics.BinaryWitness | Referencias/JavaFunctionalCpp/JavaFunctionalLib/src/semantic.cpp:23-59 | a binary expression has a witness exactly when the operator is `+ - * /` and both operands are witnesses of the same width, and then it is the unit of that width |
| Semantics.BinaryWitnessSymmetric | Referencias/JavaFunctionalCpp/JavaFunctionalLib/src/semantic.cpp:27-58 | the witness of a binary expression does not depend on the order of its operands |
| Semantics.Resolve | Referencias/JavaFunctionalCpp/JavaFunctionalLib/src/semantic.cpp:104-116 | a lookup succeeds exactly when some scope from the cursor down binds the name, and then reports nothing and resets the cursor to the top; otherwise it appends the "not found" message and leaves the cursor below the bottom; the scopes never change |
| Semantics.Declared | Referencias/JavaFunctionalCpp/JavaFunctionalLib/src/semantic.cpp:135-150 | declaring ends with an uncaught exit exactly when the cursor is below the bottom; otherwise the scope under the cursor binds the name afterwards, no scope is added, and nothing is reported |
| Semantics.Discard | Referencias/JavaFunctionalCpp/JavaFunctionalLib/src/semantic.cpp:118-133 | a visit whose value is dropped keeps its state and its exit, and yields the empty value |
| Semantics.CheckNode | Referencias/JavaFunctionalCpp/JavaFunctionalLib/src/semantic.cpp:23-174 | a visit leaves the scope stack consistent |
| Semantics.DeclarationWithoutInitializerCrashes | Referencias/JavaFunctionalCpp/JavaFunctionalLib/src/semantic.cpp:134-140 | a declaration without an initializer dereferences its null initializer, so the visit, and the whole analysis with it, ends in a crash |
| Semantics.Analysis | Referencias/JavaFunctionalCpp/JavaFunctionalLib/src/semantic.cpp:10-21 | an analysis that finishes leaves the scope stack consistent |
| Semantics.LiteralsReportNothing | Referencias/JavaFunctionalCpp/JavaFunctionalLib/src/semantic.cpp:61-102 | literals report nothing and leave the scopes alone; a bool's witness is `true` and a number's has the number's width |
| Semantics.UninspectedStatements | Referencias/JavaFunctionalCpp/JavaFunctionalLib/src/semantic.cpp:124-174 | if statements, calls and blocks are accepted without being entered: no report, no scope change, empty value |
| Semantics.IdentifierReportedIffUnbound | Referencias/JavaFunctionalCpp/JavaFunctionalLib/src/semantic.cpp:104-116 | an identifier is reported if and only if no scope from the cursor down binds it, and the report is the "not found" message |
| Semantics.AssignmentTargetReportedIffUnbound | Referencias/JavaFunctionalCpp/JavaFunctionalLib/src/semantic.cpp:152-164 | after its value is checked, an assignment reports if and only if its target is unbound, with the "not found" message |
| Semantics.CheckOnlyAppends | Referencias/JavaFunctionalCpp/JavaFunctionalLib/src/semantic.cpp:176-179 | a visit only ever appends to the error list |
| Semantics.CheckFailsOnlyByCrash | Referencias/JavaFunctionalCpp/JavaFunctionalLib/src/semantic.cpp:104-164 | every `std::invalid_argument` raised during a visit is caught; only uncaught exits end a visit |
| Semantics.OnlyDeclarationsChangeScopes | Referencias/JavaFunctionalCpp/JavaFunctionalLib/src/semantic.cpp:135-150 | a node that cannot reach a declaration leaves the scopes unchanged |
| Semantics.EmptyStackStaysEmpty | Referencias/JavaFunctionalCpp/JavaFunctionalLib/src/semantic.cpp:104-164 | the checker never pushes a scope: an empty stack stays empty, with the cursor below the bottom |
| Semantics.EmptyStackDeclarationEnds | Referencias/JavaFunctionalCpp/JavaFunctionalLib/src/semantic.cpp:135-150 | on an empty scope stack, an analysis that reaches a top-level declaration ends with an uncaught exit |
| Semantics.AnalysisOnlyAppends | Referencias/JavaFunctionalCpp/JavaFunctionalLib/src/semantic.cpp:10-21 | the analysis only appends to the error list it starts from |
| Semantics.Semantic.constructor | Referencias/JavaFunctionalCpp/JavaFunctionalLib/src/semantic.cpp:4-8 | the checker takes over the scope stack, shares the function table, and starts with no errors |
| Semantics.Semantic.Report | Referencias/JavaFunctionalCpp/JavaFunctionalLib/src/semantic.cpp:176-179 | appends one message to the errors |
| Semantics.Semantic.Analyse | Referencias/JavaFunctionalCpp/JavaFunctionalLib/src/semantic.cpp:10-21 | the errors, the scopes and the exit are those of `Analysis` |
| Semantics.Semantic.Accept | Referencias/JavaFunctionalCpp/JavaFunctionalLib/src/semantic.cpp:23-174 | the value, the errors and the scopes after one visit are those of `CheckNode` |
| Semantics.Semantic.VisitIdentifier | Referencias/JavaFunctionalCpp/JavaFunctionalLib/src/semantic.cpp:104-116 | an identifier visit agrees with `CheckNode` |
| Semantics.Semantic.VisitUnary | Referencias/JavaFunctionalCpp/JavaFunctionalLib/src/semantic.cpp:118-122 | a unary visit agrees with `CheckNode` |
| Semantics.Semantic.VisitBinary | Referencias/JavaFunctionalCpp/JavaFunctionalLib/src/semantic.cpp:23-59 | a binary visit agrees with `CheckNode` |
| Semantics.Semantic.VisitPrint | Referencias/JavaFunctionalCpp/JavaFunctionalLib/src/semantic.cpp:129-133 | a print visit agrees with `CheckNode` |
| Semantics.Semantic.VisitDeclaration | Referencias/JavaFunctionalCpp/JavaFunctionalLib/src/semantic.cpp:135-150 | a declaration visit agrees with `CheckNode` |
| Semantics.Semantic.VisitAssignment | Referencias/JavaFunctionalCpp/JavaFunctionalLib/src/semantic.cpp:152-164 | an assignment visit agrees with `CheckNode` |
| Values.HalfRange | Referencias/JavaFunctionalCpp/JavaFunctionalLib/src/interpret.cpp:227-249 | half the value range of the integer widths the arithmetic works in, always positive (16-bit `short`, 32-bit `int` and `long`) |
| Values.Wrap | Referencias/JavaFunctionalCpp/JavaFunctionalLib/src/interpret.cpp:227-249 | two's-complement truncation: the result lies in the width's range, is congruent to the input modulo the range size, and equals the input when that is already in range |
| Values.CommonKind | Referencias/JavaFunctionalCpp/JavaFunctionalLib/src/interpret.cpp:227-249 | the type of `(T1)l op (T2)r` under the usual arithmetic conversions: never `short`, `double` exactly when an operand is `double`, and integral exactly when both operands are |
| Values.TruncDiv | Referencias/JavaFunctionalCpp/JavaFunctionalLib/src/interpret.cpp:237-238 | C++ integer division truncates toward zero: it agrees with floor division on non-negative operands and is non-negative when the signs agree |
| Values.TruncDivSigns | Referencias/JavaFunctionalCpp/JavaFunctionalLib/src/interpret.cpp:237-238 | truncating division changes sign with either operand |
| Values.Arith | Referencias/JavaFunctionalCpp/JavaFunctionalLib/src/interpret.cpp:229-238 | `+ - * /` on two numbers: the result has the common type, an integral result is in range and congruent to the exact value, and only an integral `/` can fail |
| Values.IntegralArith | Referencias/JavaFunctionalCpp/JavaFunctionalLib/src/interpret.cpp:229-238 | the integral case: a result of the given width, congruent to the exact value; it traps exactly for division by zero and for the one overflowing quotient |
| Values.Equality | Referencias/JavaFunctionalCpp/JavaFunctionalLib/src/interpret.cpp:240-243 | `==` and `!=` store their `bool` as the `int` 1 or 0, 1 exactly when the comparison holds |
| Values.Negate | Referencias/JavaFunctionalCpp/JavaFunctionalLib/src/interpret.cpp:55-61 | unary minus keeps the category, promotes `short` to `int`, and on a well-formed integer gives a well-formed value that adds up with the operand to a multiple of 2^32 |
| Values.WrapNegation | Referencias/JavaFunctionalCpp/JavaFunctionalLib/src/interpret.cpp:55-61 | the wrapped negation of a value adds up with it to a multiple of 2^32 |
| Values.WrapOfCongruent | Referencias/JavaFunctionalCpp/JavaFunctionalLib/src/interpret.cpp:55-61 | the only in-range value congruent to `x` is `x` itself |
| Values.NegateTwice | Referencias/JavaFunctionalCpp/JavaFunctionalLib/src/interpret.cpp:55-61 | negating twice gives back a well-formed integer, wrap-around included; a `short` comes back as an `int` |
| Values.ArithExactWhenInRange | Referencias/JavaFunctionalCpp/JavaFunctionalLib/src/interpret.cpp:229-238 | an operation whose exact result fits the common type gives exactly that result |
| Values.CommonKindSymmetric | Referencias/JavaFunctionalCpp/JavaFunctionalLib/src/interpret.cpp:227-249 | the common type does not depend on the order of the operands |
| Values.ArithCommutes | Referencias/JavaFunctionalCpp/JavaFunctionalLib/src/interpret.cpp:231-236 | `+` and `*` on integers commute, mixed widths included |
| Values.MixedWidthsCombine | Referencias/JavaFunctionalCpp/JavaFunctionalLib/src/interpret.cpp:231-236 | `+ - *` never fail on any two numbers; two `short`s give an `int`, and an integer with a `long` gives a `long` |
| Values.DigitRun | Referencias/JavaFunctionalCpp/JavaFunctionalLib/src/parser.cpp:561-591 | the length of the run of leading decimal digits: all of them digits, and the next character not a digit |
| Values.NatToDecimal | Referencias/JavaFunctionalCpp/JavaFunctionalLib/src/interpret.cpp:118-121 | the text `operator<<` writes for a natural number is a non-empty run of digits |
| Values.DecimalRoundTrip | Referencias/JavaFunctionalCpp/JavaFunctionalLib/src/interpret.cpp:118-121 | reading back the digits written for `n` gives `n` |
| Values.StoInt | Referencias/JavaFunctionalCpp/JavaFunctionalLib/src/parser.cpp:561-591 | `stoi` reads the leading digits: none throws `std::invalid_argument`, a value past the 32-bit range throws `std::out_of_range`, and otherwise the result is their value |
| Values.StoIntReadsPrinted | Referencias/JavaFunctionalCpp/JavaFunctionalLib/src/interpret.cpp:118-121 | `stoi` reads back what `operator<<` wrote for every non-negative `int` |
| Interpreting.Unary | Referencias/JavaFunctionalCpp/JavaFunctionalLib/src/interpret.cpp:52-74 | succeeds exactly on a number, or on a bool under `!`; a number is negated whatever the operator token and a bool under `!` is inverted; every error is an `std::invalid_argument` |
| Interpreting.NumberBinary | Referencias/JavaFunctionalCpp/JavaFunctionalLib/src/interpret.cpp:222-252 | on two numbers, `+ - *` always succeed in the common type, `== !=` give the `int` 1 or 0, and exactly the operators outside `+ - * / == !=` throw an `std::invalid_argument` |
| Interpreting.MixedWidthsCombineAll | Referencias/JavaFunctionalCpp/JavaFunctionalLib/src/interpret.cpp:229-238 | arithmetic fails only by a trap, never by an `std::invalid_argument`, and only for `/` |
| Interpreting.Binary | Referencias/JavaFunctionalCpp/JavaFunctionalLib/src/interpret.cpp:216-272 | an `std::invalid_argument` is thrown exactly unless both operands are numbers under `+ - * / == !=` or both are bools under `&& \|\|`; two numbers give what `NumberBinary` gives, and two bools give `l && r` under `&&` and `l \|\| r` under `\|\|` |
| Interpreting.Condition | Referencias/JavaFunctionalCpp/JavaFunctionalLib/src/interpret.cpp:76-109 | the block runs exactly for `true` or an integer equal to 1; any value that is neither a number nor a bool throws |
| Interpreting.PrintText | Referencias/JavaFunctionalCpp/JavaFunctionalLib/src/interpret.cpp:111-142 | numbers, bools, strings and `nullptr` are printed and anything else throws; a bool prints as `1` or `0`, a string as its own text, `nullptr` as `null` and an integer as its decimal digits after a minus sign when negative |
| Interpreting.Fetch | Referencias/JavaFunctionalCpp/JavaFunctionalLib/src/interpret.cpp:46-50 | an identifier evaluates exactly when some scope at or below the cursor binds it, else "Variable Identifier ... not found."; only the cursor changes |
| Interpreting.Added | Referencias/JavaFunctionalCpp/JavaFunctionalLib/src/interpret.cpp:144-157 | `Add` into the scope under the cursor: a new name is bound with the declared type and the value; a duplicate leaves the scopes alone and prints its message on a line; with the cursor below the bottom the pointer escapes |
| Interpreting.Assigned | Referencias/JavaFunctionalCpp/JavaFunctionalLib/src/interpret.cpp:159-166 | `Assign` changes no scope; it fails exactly when no scope at or below the cursor binds the name |
| Interpreting.Popped | Referencias/JavaFunctionalCpp/JavaFunctionalLib/src/interpret.cpp:195 | the pop after a call removes the top scope, whichever it is, and leaves an empty stack as it was |
| Interpreting.Discard | Referencias/JavaFunctionalCpp/JavaFunctionalLib/src/interpret.cpp:85 | a visit whose value is dropped keeps its state and its failure, and otherwise yields nothing |
| Interpreting.Eval | Referencias/JavaFunctionalCpp/JavaFunctionalLib/src/interpret.cpp:13-277 | one visit: the scope cursor stays valid, the set of function names is unchanged, the pending bodies only shrink, and the console output only grows |
| Interpreting.RunBlock | Referencias/JavaFunctionalCpp/JavaFunctionalLib/src/interpret.cpp:209-213 | the statements of a block run in order up to the first failure, keeping the same invariants, with an empty value |
| Interpreting.Call | Referencias/JavaFunctionalCpp/JavaFunctionalLib/src/interpret.cpp:168-197 | a call keeps the invariants of `Eval` and yields an empty value |
| Interpreting.CallOf | Referencias/JavaFunctionalCpp/JavaFunctionalLib/src/interpret.cpp:171-196 | the rest of a call once the definition is moved out keeps the invariants of `Eval` and yields an empty value; a parameter count that differs from the argument count throws the arity error naming the stored identifier before any argument is evaluated |
| Interpreting.Invoke | Referencias/JavaFunctionalCpp/JavaFunctionalLib/src/interpret.cpp:193-196 | the body runs, then one scope is popped; the invariants of `Eval` hold |
| Interpreting.Bind | Referencias/JavaFunctionalCpp/JavaFunctionalLib/src/interpret.cpp:175-192 | binding the arguments keeps the invariants of `Eval`; on success parameter `k` keeps its type and name and, from position `i` on, holds a number or a bool, while those before `i` are untouched |
| Interpreting.Interpreter.Report | Referencias/JavaFunctionalCpp/JavaFunctionalLib/src/interpret.cpp:26-29 | appends exactly one runtime error and touches nothing else that is observable |
| Interpreting.Interpreter.Interpret | Referencias/JavaFunctionalCpp/JavaFunctionalLib/src/interpret.cpp:13-24 | the state after the call is the state `Eval` gives; an `std::invalid_argument` is reported and turned into an empty result, and any other exit passes through unreported |
| Interpreting.Interpreter.Accept | Referencias/JavaFunctionalCpp/JavaFunctionalLib/src/interpret.cpp:36-44 | the double dispatch ends exactly as `Eval` says, and reports nothing |
| Interpreting.Interpreter.VisitIdentifier | Referencias/JavaFunctionalCpp/JavaFunctionalLib/src/interpret.cpp:46-50 | ends exactly as `Eval` says |
| Interpreting.Interpreter.VisitUnary | Referencias/JavaFunctionalCpp/JavaFunctionalLib/src/interpret.cpp:52-74 | ends exactly as `Eval` says |
| Interpreting.Interpreter.VisitBinary | Referencias/JavaFunctionalCpp/JavaFunctionalLib/src/interpret.cpp:216-272 | ends exactly as `Eval` says |
| Interpreting.Interpreter.VisitIf | Referencias/JavaFunctionalCpp/JavaFunctionalLib/src/interpret.cpp:76-109 | ends exactly as `Eval` says |
| Interpreting.Interpreter.VisitPrint | Referencias/JavaFunctionalCpp/JavaFunctionalLib/src/interpret.cpp:111-142 | ends exactly as `Eval` says |
| Interpreting.Interpreter.VisitDeclaration | Referencias/JavaFunctionalCpp/JavaFunctionalLib/src/interpret.cpp:144-157 | ends exactly as `Eval` says |
| Interpreting.Interpreter.VisitAssignment | Referencias/JavaFunctionalCpp/JavaFunctionalLib/src/interpret.cpp:159-166 | ends exactly as `Eval` says |
| Interpreting.Interpreter.VisitCall | Referencias/JavaFunctionalCpp/JavaFunctionalLib/src/interpret.cpp:168-197 | ends exactly as `Call` says |
| Interpreting.Interpreter.RunCall | Referencias/JavaFunctionalCpp/JavaFunctionalLib/src/interpret.cpp:171-196 | ends exactly as `CallOf` says |
| Interpreting.Interpreter.RunBody | Referencias/JavaFunctionalCpp/JavaFunctionalLib/src/interpret.cpp:193-196 | ends exactly as running the body and popping one scope says |
| Interpreting.Interpreter.BindArguments | Referencias/JavaFunctionalCpp/JavaFunctionalLib/src/interpret.cpp:175-192 | the argument loop ends exactly as `Bind` says |
| Interpreting.Interpreter.VisitBlock | Referencias/JavaFunctionalCpp/JavaFunctionalLib/src/interpret.cpp:199-214 | ends exactly as `Eval` says |
| Interpreting.Interpreter.RunStatements | Referencias/JavaFunctionalCpp/JavaFunctionalLib/src/interpret.cpp:209-212 | the statement loop ends exactly as `RunBlock` says |
| InterpreterProps.UnaryTwiceRestores | Referencias/JavaFunctionalCpp/JavaFunctionalLib/src/interpret.cpp:52-74 | applying a unary operator twice gives the operand back: `!!b` is `b`, and `--x` is `x` for every well-formed integer, a `short` coming back as an `int` |
| InterpreterProps.UnaryIgnoresToken | Referencias/JavaFunctionalCpp/JavaFunctionalLib/src/interpret.cpp:52-62 | a unary operator on a number does not look at its token: `+x` negates like `-x`, so `+5` is `-5` |
| InterpreterProps.NumberBinaryCommutes | Referencias/JavaFunctionalCpp/JavaFunctionalLib/src/interpret.cpp:229-243 | `+ * == !=` on two integers do not depend on the order of the operands |
| InterpreterProps.NumbersCommute | Referencias/JavaFunctionalCpp/JavaFunctionalLib/src/interpret.cpp:222-252 | on two integer values, `+ * == !=` succeed and give the same value in either order |
| InterpreterProps.BinaryCommutes | Referencias/JavaFunctionalCpp/JavaFunctionalLib/src/interpret.cpp:216-272 | `+ * == != && \|\|` on integers and bools: both orders succeed or both fail, and agree when they succeed |
| InterpreterProps.ComparisonDecidesCondition | Referencias/JavaFunctionalCpp/JavaFunctionalLib/src/interpret.cpp:76-109 | an if on `a == b` (or `a != b`) over two integers runs its block exactly when they are equal (or differ) |
| InterpreterProps.PrintedIntegerReadsBack | Referencias/JavaFunctionalCpp/JavaFunctionalLib/src/interpret.cpp:111-122 | what print writes for a non-negative `int` is read back by `stoi` |
| InterpreterProps.PrintedNegativeIntegerReadsBack | Referencias/JavaFunctionalCpp/JavaFunctionalLib/src/interpret.cpp:111-122 | a negative `int` prints as a minus sign followed by the digits of its magnitude, which `stoi` reads back |
| InterpreterProps.FetchFindsInnermost | Referencias/JavaFunctionalCpp/JavaFunctionalLib/src/interpret.cpp:46-50 | an identifier evaluates to the value in the innermost scope at or below the cursor that binds it |
| InterpreterProps.DeclarationWithoutInitializerStoresNull | Referencias/JavaFunctionalCpp/JavaFunctionalLib/src/interpret.cpp:144-157 | a declaration without an initializer binds the name to `nullptr` under the declared type |
| InterpreterProps.AssignmentDoesNotUpdate | Referencias/JavaFunctionalCpp/JavaFunctionalLib/src/interpret.cpp:159-166 | an assignment leaves the scopes and output as its expression left them, and fails exactly when the expression fails or the name is bound nowhere at or below the cursor |
| InterpreterProps.IncrementLeavesVariable | Referencias/JavaFunctionalCpp/JavaFunctionalLib/src/interpret.cpp:159-166 | `x++` and `x op= n`, once desugared, succeed and leave every scope and the output unchanged |
| InterpreterProps.SecondCallNeverRuns | Referencias/JavaFunctionalCpp/JavaFunctionalLib/src/interpret.cpp:168-197 | calling a function whose body was moved out by an earlier call never runs a body: with arguments the arity check throws, without them the empty body pointer is dereferenced |
| InterpreterProps.BindPositional | Referencias/JavaFunctionalCpp/JavaFunctionalLib/src/interpret.cpp:175-186 | binding literal arguments changes no state and gives parameter `k` the value of argument `k` with its own type and name |
| InterpreterProps.BindRejectsString | Referencias/JavaFunctionalCpp/JavaFunctionalLib/src/interpret.cpp:175-191 | a string argument after literal ones throws the invalid-parameter error naming the function and the string type |
| InterpreterProps.CallArityMismatch | Referencias/JavaFunctionalCpp/JavaFunctionalLib/src/interpret.cpp:170-174 | a call whose argument count differs from the stored parameter count throws the arity error before any argument is evaluated, the definition being moved out all the same |
| InterpreterProps.FirstCallRejectsString | Referencias/JavaFunctionalCpp/JavaFunctionalLib/src/interpret.cpp:170-191 | the first call of a stored function with a string argument after literal ones throws the invalid-parameter error, and only the move-out has happened |
| InterpreterProps.FirstCallBindsLiterals | Referencias/JavaFunctionalCpp/JavaFunctionalLib/src/interpret.cpp:170-196 | the first call of a stored function with literal arguments runs its body with the buffer holding each parameter bound to the argument at its position, then pops one scope |
| InterpreterProps.UnknownFunctionFails | Referencias/JavaFunctionalCpp/JavaFunctionalLib/src/interpret.cpp:170 | calling a name the table does not hold throws "not declared" and changes nothing |
| InterpreterProps.EmptyBlockKeepsItsScope | Referencias/JavaFunctionalCpp/JavaFunctionalLib/src/interpret.cpp:199-214 | a block pushes the scope seeded with the parameter buffer, empties the buffer and never pops it |
| InterpreterProps.CheckerAndInterpreterAgreeOnNames | Referencias/JavaFunctionalCpp/JavaFunctionalLib/src/semantic.cpp:10-21 | over the same scopes, the checker reports an identifier exactly when the interpreter throws for it, with the same message; otherwise both give the bound value |

## Left out

- The driver `main.cpp` is not part of this model. It reads the file, sets the console code page and returns exit codes. It stops at the first stage that fails.
- `traverse_ast.cpp`, the tree printer, is not part of this model. It only writes to the console.
- Floating-point arithmetic, `stof` and `stod` are kept symbolic: each value is the term that produced it, and rounding is not modelled. A printed `float` or `double` is written as a symbolic text item, not as digits.
- Values.StoFloat: a literal whose integer part lies between 3.4·10^38 and 3.5·10^38 (`float`) or 1.7·10^308 and 1.8·10^308 (`double`), or a non-zero value below 1 whose fraction starts with more than 36 (`float`) or 306 (`double`) zeros, gives `Unmodelled`: whether `stof`/`stod` throws there depends on rounding and on the library's treatment of underflow, which the model does not carry. Only the decimal forms the lexer produces (digits, optionally a dot and digits) are modelled; other text gives `Unmodelled`.
- ParserSpec.TypedLiteral and ParserSpec.PlainLiteral: inherit the `Unmodelled` band of `Values.StoFloat` near the floating limits.
- Values.Equality: `==` and `!=` with a `float` or `double` operand give the `Unmodelled` outcome, because the result depends on rounding. The same holds for `Interpreting.Condition` on a floating condition.
- Integer widths follow the Windows (LLP64) data model: `long` has 32 bits, so `stol` reads like `stoi`. Signed overflow is taken to wrap in two's complement.
- Error messages built from `std::any::type().name()` depend on the compiler. The model puts a fixed name for each value category in their place (`Interpreting.TypeName`).
- `Parser::GetErrorReports` and `Interpreter::GetRuntimeErrors` are plain getters. The model reads the `errors` and `runtimeErrors` fields directly.
- `Lexer::Current` and `Lexer::PeekNext` are `LookAhead(0)` and `LookAhead(1)`. `Parser::Peek`, `PeekNext`, `PeekNextNext`, `Previous` and `PreviousPrevious` are `LookAhead` at fixed offsets. These carry no contracts of their own.
- Loops that never end in the source are a `Diverges` result, not a non-terminating computation: an unterminated string or comment, a lone `!`, and an argument loop iteration that consumes nothing.
- Parsing.Parser.FindVarType: the six `ExpectOptional` calls of the source are written as a loop over the six type keywords in the same order. This is the same sequence of attempts.
- Parsing.Parser.VarAssignmentStatement: the eight `ExpectOptional` branches of the source are grouped into three helper methods (`Incremented`, `AssignedValue`, `AssignmentAsTerm`). The operators are tried in the source's order.
- Parsing.Parser.Parse: after a statement fails with an exception, the contract does not state where the cursor is left. The loop stops there, because the report it adds ends the loop.
- The `func_id` parameter of `ParseBlockStatement` is unused in the source and is not modelled.
- Some messages are printed to `std::cout` by `EnvStack::Add` on a duplicate name. In the parser and the semantic checker the model drops them: the parser's `AddVariable` and the checker's `Declared` record no output. The interpreter appends the message to its output.
- The lexer works on the characters of a `string`, where the source works on the bytes of a `std::string`. On non-ASCII input the positions, lengths and string values it gives count characters, not bytes, and a non-ASCII character outside a string gives one bad token where the source gives one per byte. The model does not capture this.
- The semantic checker holds the function table but never reads it. The model keeps the reference and nothing else.
- `VisitBoolNode`'s check for a bool that is neither `true` nor `false`, and `VisitNumberNode`'s "Number value is invalid." branch, can never fire. The model has no such values.

## Findings

| source | as written | input that shows it | evidently intended | confidence | as-written member | corrected member |
|---|---|---|---|---|---|---|
| Referencias/JavaFunctionalCpp/JavaFunctionalLib/src/parser.cpp:296-302 | `FunctionCall` expects `)` again after `Arguments` has already consumed the closing parenthesis | `f();`: after `f()` the parser finds `;`, reports "Expected" for `)`, and `Parse` stops at the report | the closing parenthesis is expected once, so `f()` is a call of no arguments with no report | not executed | StatementSpec.CallAsWritten, which `Expression` and `Parsing.Parser.FunctionCall` follow (ParserProps.EmptyCallRejectedAsWritten, ParserProps.CallAsWrittenWantsTwoParens) | StatementSpec.Call (ParserProps.CallReadsItsArguments) |
