# mana: lexer, keyword table and statement parser in Dafny

This project models the front end of the mana interpreter (Go). It has three parts:

- **Tokens** (`tokens.dfy`): the closed enumeration of token types and their string names. It also holds the token record, the keyword table and `LookupIdent`.
- **Lexing** (`lexer.dfy`): the byte-cursor scanner.
  - The class `Lexer` keeps `position`, `readPosition` and the current byte `ch`, and reports NUL past the end of the input.
  - Its methods are proved against the pure function `Lex(input, p)`. `Lex` gives the token scanned with the cursor at `p` and where the cursor ends.
  - `Toks(input, p)` is the whole token stream up to and including the EOF at the end of the input.
- **Parsing** (`parser.dfy`): the statement parser.
  - The class `Parser` keeps a two-token window (`curToken`/`peekToken`) over a `Lexer`, plus an append-only error list and the prefix-handler table.
  - The ghost field `stream` is the token stream of the lexer. The ghost counter `pulled` says how many tokens the parser has taken from it.
  - Every parsing method is proved against pure functions of the stream:
    - `LetStatementAt`, `ReturnStatementAt`, `ExpressionStatementAt`, `StatementAt`, `ProgramFrom` and `Parse`.
    - They return `None` exactly when the Go code would loop forever. That happens when a `return` is never followed by `;`, or when a `let` has its IDENT and `=` and no `;` after the `=`: EOF repeats forever and the skip loop never stops. A `let` that misses its IDENT or `=` returns before the skip loop and never hangs.
- **ParserProperties** (`parser_properties.dfy`): properties of those functions.
  - Integer text through `strconv.ParseInt(lit, 0, 64)`: decimal and octal round trips, and exactly when a literal is rejected.
  - The outcome of each kind of statement.
  - What holds of every parsed program: one entry per loop turn, each well formed, each statement recording at most one error, so no more errors than entries.
  - When parsing ends and when it hangs.

Bytes are `char`s below 256. A Go string is a `seq<byte>`, so ASCII string literals in the model are byte strings as they stand.

Three behaviours of the Go code are reproduced on purpose:

- **A failed `let` is still appended.** `parseLetStatement` returns a nil `*ast.LetStatement` inside a non-nil `ast.Statement`, so the `stmt != nil` check passes. The model has a `NilLetStatement` entry for it. Every loop turn therefore appends exactly one entry.
- **A NUL byte inside the input scans as EOF.** Scanning continues after it, so the skip-to-`;` loops pass over it while `ParseProgram` stops at it.
- **No error for a token without a prefix handler.** Such a token gives an expression statement with no expression and records nothing. The error list only ever grows by appends.

Two more behaviours of the code that the model keeps:

- `ParseProgram` does not always complete: it hangs when a `return` has no `;` after it, or when a `let` has its IDENT and `=` and no `;` after the `=` (parser/parser.go:149-151, 165-167).
- Keyword token names are the upper-case constants `LET`, `RETURN`, … (tokens/tokens.go:40-46).

The ILLEGAL token of a byte of 0x80 or more is the one place where the scanner of the model departs from the code as written (see "## Findings"). `Lex` and everything built on it use the byte itself as the literal. `LexAsWritten` and `ToksAsWritten` are the scanner exactly as the code writes it, and `ToksAsWrittenIffAscii` proves that the two produce the same token stream exactly when the input is ASCII.

`CurTokenIs` and `PeekTokenIs` read the window and state which stream token it holds. `Errors` returns the error list as it stands. The two identical skip-to-`;` loops of `parseLetStatement` and `parseReturnStatement` are the single method `Parser.SkipToSemicolon`.

## Model

| member | source | states |
|---|---|---|
| Tokens.LookupIdent | tokens/tokens.go:59-65 | the result is IDENT or a keyword type, and it is not IDENT exactly when the text is a key of the keyword table |
| Tokens.LookupIdentKeywords | tokens/tokens.go:49-65 | each of the seven keyword types is returned for exactly its one spelling: fn, let, if, else, true, false, return |
| Tokens.LookupIdentCaseSensitive | tokens/tokens.go:60-65 | case variants such as `Let`, `LET`, `Fn`, `RETURN` are IDENT |
| Tokens.KeywordsDistinct | tokens/tokens.go:40-57 | the keyword table is injective, never yields IDENT, and its values are exactly the seven keyword types |
| Tokens.Name | tokens/tokens.go:10-47 | the string constant of each token type, operators spelled as their symbol and keywords in upper case |
| Tokens.NamesDistinct | tokens/tokens.go:10-47 | distinct token types have distinct name strings |
| Lexing.IsLetter | lexer/lexer.go:100-103 | ASCII letters and the underscore |
| Lexing.IsDigit | lexer/lexer.go:105-108 | the ASCII digits 0 to 9 |
| Lexing.IsWhitespace | lexer/lexer.go:88-93 | space, tab, newline and carriage return, the bytes the skip loop passes; none of them is a letter, a digit or NUL |
| Lexing.ByteAt | lexer/lexer.go:110-128 | the byte the cursor sees: the input byte at the index, or NUL once the index is past the end, as `readChar` and `peekChar` give |
| Lexing.SkipWs | lexer/lexer.go:88-93 | the cursor stops on the first byte that is not space, tab, newline or carriage return, and every byte passed over is one of those |
| Lexing.LetterRunEnd | lexer/lexer.go:130-137 | the end of the maximal run of letters and underscores from the cursor |
| Lexing.DigitRunEnd | lexer/lexer.go:139-146 | the end of the maximal run of digits from the cursor |
| Lexing.NewToken | lexer/lexer.go:95-98 | the corrected one-byte token: the literal is the byte read |
| Lexing.NewTokenAsWritten | lexer/lexer.go:95-98 | `newToken` as written: the literal is `string(ch)` |
| Lexing.GoByteString | lexer/lexer.go:95-98 | Go's `string(ch)` is the byte itself below 0x80 and two bytes from 0x80 on |
| Lexing.Toks | lexer/lexer.go:19-86 | the tokens that repeated `NextToken` calls return from a cursor, up to and including the EOF once the input is exhausted; `ToksStep`, `ToksLength` and `ToksEndWithEof` state its shape |
| Lexing.Lex | lexer/lexer.go:19-86 | every scan moves the cursor strictly forward; its ILLEGAL literal is the corrected one byte |
| Lexing.LexPastEnd | lexer/lexer.go:111-114 | past the end of the input a scan gives EOF with an empty literal and moves one step |
| Lexing.EofForever | lexer/lexer.go:111-119 | once the input is exhausted, every later call, however many, gives EOF with an empty literal |
| Lexing.LexEof | lexer/lexer.go:67-69 | a scan gives EOF exactly when the first non-whitespace byte is NUL, including a NUL inside the input; the literal is then empty |
| Lexing.LexTwoByteOperators | lexer/lexer.go:25-54 | `==` and `!=` are single EQ and NOT_EQ tokens that move the cursor by two; a lone `=` or `!` is ASSIGN or BANG |
| Lexing.LexIdentifier | lexer/lexer.go:71-74 | a letter starts the maximal letter run as literal, typed by `LookupIdent`; the byte after it is not a letter |
| Lexing.LexInteger | lexer/lexer.go:75-78 | a digit starts an INT whose literal is the maximal digit run; the byte after it is not a digit |
| Lexing.LexIllegal | lexer/lexer.go:79-84 | ILLEGAL is produced exactly for a byte that is no symbol, letter, digit or NUL; its literal is that byte and the cursor moves by one |
| Lexing.LexSingleByteSymbol | lexer/lexer.go:34-66 | each single-byte symbol is one token, named by its own byte, and the cursor moves by one |
| Lexing.LexLiteralMatchesInput | lexer/lexer.go:19-86 | every non-EOF literal is the input slice starting after the whitespace, and the cursor moves by exactly its length |
| Lexing.LexLiteralIsVisible | lexer/lexer.go:89-93 | no literal contains whitespace or NUL |
| Lexing.OperatorTypeIsLiteral | lexer/lexer.go:25-66 | for every operator or delimiter token the type name equals the literal |
| Lexing.ToksEndWithEof | lexer/lexer.go:67-69 | the token stream is nonempty and ends with EOF with an empty literal |
| Lexing.ToksStep | lexer/lexer.go:19-86 | the stream is the token scanned at the cursor, then the stream from where that scan leaves the cursor |
| Lexing.ToksLength | lexer/lexer.go:19-86 | every call consumes at least one byte, so the stream holds at most one token per remaining byte, plus the EOF |
| Lexing.ToksPastEnd | lexer/lexer.go:111-114 | past the end of the input the stream is a single EOF |
| Lexing.ToksOfBlankInput | lexer/lexer.go:89-93 | blank input gives the single EOF |
| Lexing.ToksNumerals | lexer/lexer.go:139-146 | every INT token of the stream carries a nonempty digit string |
| Lexing.LexKeywordSpelled | lexer/lexer.go:71-74 | a keyword token is spelled as its keyword in the table |
| Lexing.ToksKeywordsSpelled | lexer/lexer.go:71-74 | every keyword token of the stream is spelled as its keyword in the table |
| Lexing.ScanCoversSlice | lexer/lexer.go:19-86 | the bytes one scan passes over, less whitespace and NUL, are its literal |
| Lexing.ToksCoverInput | lexer/lexer.go:19-86 | the literals of the stream, concatenated, are the input with whitespace and NUL removed: nothing is lost or duplicated |
| Lexing.VisibleAppend | lexer/lexer.go:89-93 | removing whitespace and NUL distributes over concatenation |
| Lexing.VisibleOfBlank | lexer/lexer.go:89-93 | removing whitespace from blank text leaves nothing |
| Lexing.VisibleOfLiteral | lexer/lexer.go:89-93 | removing whitespace and NUL from text without them changes nothing |
| Lexing.IllegalLiteralAsWritten | lexer/lexer.go:96-98 | for the byte 0xE9, `newToken` and the scan as written give the two-byte literal 0xC3 0xA9, not the input byte, while the corrected scanner gives the byte |
| Lexing.LexAsWritten | lexer/lexer.go:19-98 | the scan exactly as written, with `newToken` and `string(ch) + string(l.ch)`; every scan moves the cursor strictly forward |
| Lexing.ToksAsWritten | lexer/lexer.go:19-98 | the token stream of the code as written, up to the EOF at the end of the input |
| Lexing.LexAsWrittenAgrees | lexer/lexer.go:79-81 | the scan as written equals the corrected scan exactly when the byte after whitespace is ASCII; otherwise both give ILLEGAL and move one byte, but the literal as written is the two bytes of `string(ch)` |
| Lexing.ScanPassesAscii | lexer/lexer.go:19-86 | a scan that starts on an ASCII byte passes over ASCII bytes only |
| Lexing.ToksAsWrittenOnAscii | lexer/lexer.go:19-98 | on ASCII input the stream as written is the model's stream |
| Lexing.ToksAsWrittenDiffer | lexer/lexer.go:79-81 | a byte of 0x80 or more anywhere in the input makes the stream as written differ from the model's |
| Lexing.ToksAsWrittenIffAscii | lexer/lexer.go:19-98 | the stream as written equals the model's stream exactly when every input byte is below 0x80 |
| Lexing.EqualityOperatorExamples | lexer/lexer.go:25-54 | `==` scans to EQ `==` then EOF, and `!=` to NOT_EQ `!=` then EOF |
| Lexing.IdentifierDigitExample | lexer/lexer.go:71-78 | `x1` scans to IDENT `x`, INT `1`, EOF |
| Lexing.IllegalExample | lexer/lexer.go:79-81 | `@` scans to ILLEGAL `@`, EOF |
| Lexing.Lexer.New | lexer/lexer.go:11-16 | a new lexer stands on position 0 with `ch` the first byte (NUL for empty input) and `readPosition` one past it |
| Lexing.Lexer.ReadChar | lexer/lexer.go:110-119 | the cursor moves one byte: `position` takes `readPosition`, `readPosition` is one past it, and `ch` is the byte there or NUL past the end |
| Lexing.Lexer.PeekChar | lexer/lexer.go:121-128 | the byte after the current one, NUL past the end |
| Lexing.Lexer.SkipWhitespace | lexer/lexer.go:88-93 | the loop leaves the cursor where `SkipWs` says |
| Lexing.Lexer.ReadIdentifier | lexer/lexer.go:130-137 | the loop stops at the end of the letter run and returns the slice it passed |
| Lexing.Lexer.ReadNumber | lexer/lexer.go:139-146 | the loop stops at the end of the digit run and returns the slice it passed |
| Lexing.Lexer.NextToken | lexer/lexer.go:18-86 | the token returned and the new cursor are exactly what `Lex` gives from the old cursor |
| Parsing.ParseInt64 | parser/parser.go:120 | an accepted literal reads as a value in 0 .. 2^63-1; `DecimalLiteral` and `OctalLiteral` state exactly what is accepted |
| Parsing.PeekErrorMessage | parser/parser.go:228 | `expected next token to be <expected>, got <got> instead`, with the token type names |
| Parsing.IntegerErrorMessage | parser/parser.go:122 | `could not parse "<lit>" as integer`; `%q` of a digit string is the string in double quotes |
| Parsing.FirstSemicolon | parser/parser.go:149-151 | the first `;` at or after an index, with no `;` before it; None exactly when none follows |
| Parsing.At | parser/parser.go:60-63 | the token the parser holds at a stream index: the stream's own token inside it, and EOF with an empty literal from the stream's final EOF on, because the exhausted lexer repeats it |
| Parsing.ExpressionAt | parser/parser.go:185-196 | the registered prefix handler for the token: an identifier, an integer literal or the integer error, and no expression without a handler |
| Parsing.LetStatementAt | parser/parser.go:132-154 | the let statement at an index: a peek error for a missing IDENT or `=`, else the statement ending on the first `;`, or None when none follows |
| Parsing.ReturnStatementAt | parser/parser.go:156-170 | the return statement ending on the first `;` after `return`, or None when none follows |
| Parsing.ExpressionStatementAt | parser/parser.go:172-183 | the expression at an index, then one step more when `;` follows |
| Parsing.StatementAt | parser/parser.go:99-109 | the let, return or expression statement according to the token type |
| Parsing.ProgramFrom | parser/parser.go:75-97 | the statements and errors of the program loop from an index to EOF, or None when some statement never ends |
| Parsing.Parse | parser/parser_test.go:17-21 | the program of the token stream of a whole source text |
| Parsing.LetStatementOutcome | parser/parser.go:132-154 | a let parses exactly when IDENT and `=` follow; it then has no error, the let token, a name whose value is the identifier text, and ends on the first `;` after the `=`; otherwise it records one peek error for IDENT (current token unchanged) or for ASSIGN (current token on the identifier) |
| Parsing.StatementStaysInStream | parser/parser.go:99-109 | the token a statement ends on is inside the stream and not before where it started |
| Parsing.ProgramAtEof | parser/parser.go:83 | at EOF the program loop is over, with no statements and no errors |
| Parsing.ProgramFromStep | parser/parser.go:83-93 | one loop turn: the statement at the current token, then the program after the token it ends on; statements and errors are those of the two parts in order |
| Parsing.ProgramFromUnfold | parser/parser.go:83-93 | a program that ends is the statement at the current token, which ends inside the stream, followed by the program from the token after it; statements and errors concatenate in that order |
| Parsing.StreamAdvance | parser/parser.go:60-63 | the token the lexer hands over next is the next token of the stream, and the lexer stays in step with the stream |
| Parsing.Parser.New | parser/parser.go:40-57 | after two advances the current token is the first token of the stream and the peek token the second; no errors; the IDENT and INT prefix handlers are registered |
| Parsing.Parser.NextToken | parser/parser.go:59-63 | the peek token becomes the current token and exactly one new token, the next of the stream, is pulled; errors unchanged |
| Parsing.Parser.RegisterPrefix | parser/parser.go:65-68 | the table maps the token type to the handler, and nothing else changes |
| Parsing.Parser.PeekError | parser/parser.go:226-231 | appends exactly `expected next token to be <t>, got <peek type> instead` |
| Parsing.Parser.CurTokenIs | parser/parser.go:198-201 | whether the current token, which is the stream's token at the cursor, has the given type |
| Parsing.Parser.PeekTokenIs | parser/parser.go:203-206 | whether the peek token, which is the stream's token after the cursor, has the given type |
| Parsing.Parser.Errors | parser/parser.go:221-224 | the error list itself, in the order recorded; `ParseSource` ties it to `Parse` |
| Parsing.Parser.ExpectPeek | parser/parser.go:208-219 | on a match it advances once with no error and returns true; otherwise it leaves the window alone, appends one peek error and returns false |
| Parsing.Parser.ParseIdentifier | parser/parser.go:111-114 | an Identifier whose token is the current token and whose value is its literal |
| Parsing.Parser.ParseIntegerLiteral | parser/parser.go:116-130 | an integer literal with the parsed value when `ParseInt` accepts the text, else no expression and exactly one `could not parse "<lit>" as integer` |
| Parsing.Parser.ParseExpression | parser/parser.go:185-196 | the result of the registered prefix handler, or no expression and no error for a token without one |
| Parsing.Parser.ParseExpressionStatement | parser/parser.go:172-183 | the statement, the errors and the current token afterwards are `ExpressionStatementAt` of the stream |
| Parsing.Parser.SkipToSemicolon | parser/parser.go:149-151 | the loop stops on the first `;` from the current token on, with errors unchanged |
| Parsing.Parser.ParseLetStatement | parser/parser.go:132-154 | the statement, the errors and the current token afterwards are those of the let statement at the current token |
| Parsing.Parser.ParseReturnStatement | parser/parser.go:156-170 | the statement, the errors and the current token afterwards are those of `ReturnStatementAt` |
| Parsing.Parser.ParseStatement | parser/parser.go:99-109 | dispatches on let, return and anything else; the outcome is `StatementAt` of the stream |
| Parsing.Parser.ParseProgram | parser/parser.go:75-97 | stops on EOF; the statements are those of `ProgramFrom` and the errors are appended in the same order |
| Parsing.ParseSource | parser/parser_test.go:17-21 | a new lexer and parser over a text give exactly the statements and errors of `Parse` |
| ParserProperties.Decimal | parser/parser.go:120 | the canonical decimal spelling of a number is a digit string without a leading zero |
| ParserProperties.ValueOfDecimal | parser/parser.go:120 | the canonical spelling reads back as the number in base 10 |
| ParserProperties.ValuePositive | parser/parser.go:120 | a digit string without a leading zero has a positive value |
| ParserProperties.DecimalCanonical | parser/parser.go:120 | a digit string without a leading zero is the canonical spelling of its value |
| ParserProperties.DecimalRoundTrip | parser/parser.go:120 | reading the decimal spelling of n gives n when n is at most 2^63-1, and an error otherwise |
| ParserProperties.DecimalLiteral | parser/parser.go:120 | without a leading zero a literal is accepted exactly when its decimal value fits int64, and it then spells that value |
| ParserProperties.Octal | parser/parser.go:120 | the canonical octal spelling of a number: digits 0 to 7 without a leading zero |
| ParserProperties.ValueOfOctal | parser/parser.go:120 | the octal spelling reads back as the number in base 8 |
| ParserProperties.OctalRoundTrip | parser/parser.go:120 | `0` followed by the octal spelling of n reads as n when n is at most 2^63-1, and is an error otherwise |
| ParserProperties.OctalLiteral | parser/parser.go:120-125 | with a leading zero a literal is an error exactly when an 8 or 9 follows the zero or its octal value exceeds 2^63-1; otherwise it reads as that octal value |
| ParserProperties.IntegerLiteralExamples | parser/parser.go:119-124 | through `strconv.ParseInt(lit, 0, 64)`, `0` and `5` read as 0 and 5, `010` reads as 8 (octal) and `09` is an error; parser/parser_test.go checks the `5` case |
| ParserProperties.ReturnStatementOutcome | parser/parser.go:156-170 | a return never ends exactly when no `;` follows; otherwise it is a ReturnStatement with the return token and no error, ending on the first `;` |
| ParserProperties.ExpressionStatementOutcome | parser/parser.go:172-196 | an expression is present exactly for IDENT or an INT that reads; the only error is the integer one, for an INT that does not read; a following `;` is consumed and nothing else |
| ParserProperties.StatementWellFormed | parser/parser_test.go:64-92 | every statement is well formed: let and return carry their keyword spelled `let` and `return`, a let name's value is its identifier text, an expression matches its token and value; at most one error |
| ParserProperties.ProgramInvariants | parser/parser.go:76-97 | whatever the loop returns has at most one entry per remaining token, no more errors than entries, and only well-formed entries |
| ParserProperties.ProgramEndsWithoutSkips | parser/parser.go:76-97 | a stream without let or return always finishes, with only expression statements |
| ParserProperties.ProgramHangsWithoutSemicolon | parser/parser.go:165-167 | a return with no `;` after it makes the whole program loop hang |
| ParserProperties.LetHangsWithoutSemicolon | parser/parser.go:149-151 | a let with its IDENT and `=` and no `;` from the `=` on makes the whole program loop hang |
| ParserProperties.MissingAssignLexed | lexer/lexer.go:19-86 | the lexer turns `let x 5;` into LET `let`, IDENT `x`, INT `5`, `;` and EOF, the tokens of the two examples below |
| ParserProperties.MissingAssignLetExample | parser/parser.go:142-144 | in `let x 5;` the let fails with one error naming ASSIGN and INT and leaves the current token on `x` |
| ParserProperties.MissingAssignIntegerExample | parser/parser.go:173-183 | in `let x 5;`, after `x`, `5;` is an integer expression statement of value 5 that consumes the `;`, followed by EOF |
| ParserProperties.BlankInputParsesEmpty | parser/parser.go:76-97 | empty or blank input gives no statements and no errors |
| ParserProperties.ParsedProgramWellFormed | parser/parser.go:76-97 | for any source text that parses, the entries are well formed and there are no more errors than entries |

## Left out

- repl/repl.go and main.go: interactive I/O loops and an operating-system user lookup, outside the front end.
- The precedence constants other than LOWEST (parser/parser.go:12-21): nothing in this version reads them.
- `registerInfix` and `infixParseFns`: the map is never allocated and nothing calls the function.
- The prefix and infix expression tests (parser/parser_test.go:197-318): this `parseExpression` cannot produce those nodes, so they are not stated.
- Grammar this code does not have: if, fn, calls, booleans, grouping.
- Full `strconv.ParseInt` base-0 semantics: signs, `0x`/`0b`/`0o` prefixes and underscores are not modelled. `ParseInt64` takes digit strings only, the only text the lexer hands over as an INT literal.
- AST `String()` rendering and `TokenLiteral()`: ast/ast.go is not part of this model. Only the node fields the parser fills in are modelled.
- Unicode: the input is a sequence of bytes. Beyond the `string(ch)` finding below there is no decoding.
- Lexing.Lex: uses the corrected one-byte ILLEGAL literal for a byte of 0x80 or more, where the code as written gives the two bytes of `string(ch)`. `LexAsWritten` is the scan as written, and `LexAsWrittenAgrees` relates the two.
- Lexing.Lexer.NextToken: is proved equal to the corrected `Lex`, so for a byte of 0x80 or more its ILLEGAL literal is the byte, not the two bytes the code as written returns.
- Lexing.LexIllegal: states the corrected one-byte literal. For a byte of 0x80 or more the code as written gives `string(ch)`, as `LexAsWrittenAgrees` states.
- Lexing.ScanCoversSlice: holds of the corrected scanner. For the code as written it holds only when the scan starts on an ASCII byte (`LexAsWrittenAgrees`).
- Lexing.ToksCoverInput: holds of the corrected scanner. For the code as written it holds exactly on ASCII input, where the two streams are equal (`ToksAsWrittenIffAscii`).
- Integer widths: positions and counts are unbounded integers. Go `int` overflow would need inputs beyond memory sizes.
- Parsing.Parser.ParseProgram: requires that the program loop ends, given as the ghost parameter `whole`, the value of `ProgramFrom`. The hanging run is not modelled as a method execution; `ProgramHangsWithoutSemicolon` states when it happens.
- Parsing.Parser.ParseLetStatement: takes the statement's outcome as a ghost parameter and requires that outcome to exist, that is, that a `;` follows when the let reaches its skip loop.
- Parsing.Parser.ParseReturnStatement: requires that a `;` follows the `return`; otherwise the Go loop never ends.
- Parsing.Parser.ParseStatement: requires that the statement at the current token ends, as the two skip loops need.
- Parsing.Parser.SkipToSemicolon: requires a `;` ahead; the Go loops never end without one.
- Parsing.ParseSource: requires that parsing the text ends; for other texts the Go call never returns.
- Parsing.Parser.New: the model puts an ILLEGAL token with an empty literal where Go has its zero `Token` (type "", literal ""); both are overwritten before they are read.
- The whole-text inputs of TestLetStatements, TestReturnStatements, TestIdentifierExpression and TestIntegerLiteralExpression (parser/parser_test.go:10-193) are not evaluated as concrete examples. Lexing and parsing a whole text at once is costly for the verifier. The general lemmas above state what those tests check.

## Findings

| source | as written | input that shows it | evidently intended | confidence | as-written member | corrected member |
|---|---|---|---|---|---|---|
| lexer/lexer.go:96-98 | `newToken` builds the literal with `string(ch)`. For a byte of 0x80 or more that is the two-byte UTF-8 encoding of the code point, not the byte | the one-byte input 0xE9 gives an ILLEGAL token with literal 0xC3 0xA9 (`IllegalLiteralAsWritten`); the token stream as written differs from the corrected one on every input with such a byte | the ILLEGAL literal is the input byte, so that every literal is the slice of input it was read from | not executed | Lexing.ToksAsWrittenIffAscii | Lexing.LexLiteralMatchesInput |
