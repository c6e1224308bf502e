/** Properties of the statement parser and of its integer reading, stated about the pure
    functions that the `Parser` methods are proved against. */
module ParserProperties {
  import opened Tokens
  import opened Lexing
  import opened Parsing

  // ---------------------------------------------------------------------------------------
  // Integer text

  /** The canonical decimal spelling of n: no leading zero, except for n = 0 itself. */
  function Decimal(n: nat): (d: seq<byte>)
    ensures IsNumeral(d)
    ensures n > 0 ==> d[0] != '0'
  {
    if n < 10 then [('0' as int + n) as char]
    else Decimal(n / 10) + [('0' as int + n % 10) as char]
  }

  /** Reading the canonical spelling back in base 10 gives the number. */
  lemma {:induction false} ValueOfDecimal(n: nat)
    ensures Value(Decimal(n), 10) == n
  {
    var d := Decimal(n);
    if n >= 10 {
      var front := Decimal(n / 10);
      assert d[..|d| - 1] == front;
      ValueOfDecimal(n / 10);
    }
  }

  /** A digit string without a leading zero has a positive value. */
  lemma {:induction false} ValuePositive(d: seq<byte>, base: nat)
    requires IsNumeral(d) && d[0] != '0' && base >= 1
    ensures Value(d, base) >= 1
  {
    if |d| > 1 {
      var front := d[..|d| - 1];
      assert front[0] == d[0];
      ValuePositive(front, base);
    }
  }

  /** A digit string without a leading zero is the canonical spelling of its value. */
  lemma {:induction false} DecimalCanonical(d: seq<byte>)
    requires IsNumeral(d) && d[0] != '0'
    ensures Decimal(Value(d, 10)) == d
  {
    var v := Value(d, 10);
    var last := d[|d| - 1];
    if |d| == 1 {
      assert d == [last];
    } else {
      var front := d[..|d| - 1];
      assert front[0] == d[0];
      ValuePositive(front, 10);
      DecimalCanonical(front);
      assert v / 10 == Value(front, 10) && v % 10 == DigitValue(last);
      assert d == front + [last];
    }
  }

  /** `strconv.ParseInt(lit, 0, 64)` reads every number up to 2^63-1 back from its decimal
      spelling, and rejects the spelling of every larger one. */
  lemma DecimalRoundTrip(n: nat)
    ensures ParseInt64(Decimal(n)) == if n <= MaxInt64 then Some(n) else None
  {
    ValueOfDecimal(n);
    if n == 0 {
      assert Decimal(n) == "0";
    }
  }

  /** Without a leading zero a literal is read in decimal: it is accepted exactly when its
      value is at most 2^63-1, and it is then the decimal spelling of the result. */
  lemma DecimalLiteral(d: seq<byte>)
    requires IsNumeral(d) && d[0] != '0'
    ensures ParseInt64(d).Some? <==> Value(d, 10) <= MaxInt64
    ensures ParseInt64(d).Some? ==> ParseInt64(d).value == Value(d, 10) && d == Decimal(ParseInt64(d).value)
  {
    DecimalCanonical(d);
  }

  /** The canonical octal spelling of n: digits 0 to 7, no leading zero except for n = 0. */
  function Octal(n: nat): (d: seq<byte>)
    ensures IsNumeral(d) && InBase(d, 8)
    ensures n > 0 ==> d[0] != '0'
  {
    if n < 8 then [('0' as int + n) as char]
    else Octal(n / 8) + [('0' as int + n % 8) as char]
  }

  /** Reading the octal spelling back in base 8 gives the number. */
  lemma {:induction false} ValueOfOctal(n: nat)
    ensures Value(Octal(n), 8) == n
  {
    var d := Octal(n);
    if n >= 8 {
      var front := Octal(n / 8);
      assert d[..|d| - 1] == front;
      ValueOfOctal(n / 8);
    }
  }

  /** A `0` followed by the octal spelling of n reads back as n up to 2^63-1, and is
      rejected for every larger n. */
  lemma OctalRoundTrip(n: nat)
    ensures IsNumeral(['0'] + Octal(n))
    ensures ParseInt64(['0'] + Octal(n)) == if n <= MaxInt64 then Some(n) else None
  {
    var d: seq<byte> := ['0'] + Octal(n);
    assert d[0] == '0' && d[1..] == Octal(n);
    ValueOfOctal(n);
  }

  /** With a leading zero the rest is read in octal: the literal is rejected exactly when an
      8 or 9 follows the zero or the octal value exceeds 2^63-1, and is otherwise that value. */
  lemma OctalLiteral(d: seq<byte>)
    requires IsNumeral(d) && d[0] == '0'
    ensures ParseInt64(d).None? <==>
      (exists i :: 1 <= i < |d| && (d[i] == '8' || d[i] == '9')) || Value(d[1..], 8) > MaxInt64
    ensures ParseInt64(d).Some? ==> ParseInt64(d).value == Value(d[1..], 8)
  {
    var rest := d[1..];
    if exists i :: 1 <= i < |d| && (d[i] == '8' || d[i] == '9') {
      var i :| 1 <= i < |d| && (d[i] == '8' || d[i] == '9');
      assert rest[i - 1] == d[i];
    } else {
      forall k | 0 <= k < |rest| ensures DigitValue(rest[k]) < 8 {
        assert rest[k] == d[k + 1];
      }
    }
  }

  lemma IntegerLiteralExamples()
    ensures ParseInt64("0") == Some(0)
    ensures ParseInt64("5") == Some(5)
    ensures ParseInt64("010") == Some(8)
    ensures ParseInt64("09") == None
  {
    assert "0"[1..] == [];
    var five: seq<byte> := "5";
    assert five[..0] == [] && five[0] == '5';
    assert Value(five, 10) == 5 && InBase(five, 10);
    assert "010"[1..] == "10" && "10"[..1] == "1" && "1"[..0] == [];
    assert "09"[1..] == "9";
    assert DigitValue("9"[0]) >= 8;
  }

  // ---------------------------------------------------------------------------------------
  // One statement

  /** A return statement ends on the first `;` after the `return`, with no error; it never
      ends exactly when no `;` follows. */
  lemma ReturnStatementOutcome(s: seq<Token>, i: nat)
    ensures ReturnStatementAt(s, i).None? <==> forall m :: i < m ==> At(s, m).tokenType != Semicolon
    ensures ReturnStatementAt(s, i).Some? ==>
      var st := ReturnStatementAt(s, i).value;
      && st.statement == ReturnStatement(At(s, i)) && st.errors == []
      && i < st.cur < |s| && s[st.cur].tokenType == Semicolon
      && (forall m :: i < m < st.cur ==> At(s, m).tokenType != Semicolon)
  {
    match FirstSemicolon(s, i + 1) {
      case None =>
        forall m | i < m ensures At(s, m).tokenType != Semicolon {
          assert i + 1 <= m;
        }
      case Some(j) =>
        assert At(s, j).tokenType == Semicolon;
    }
  }

  /** An expression statement has an expression exactly for an identifier or an integer
      that reads; its only possible error is the integer one; a following `;` is consumed. */
  lemma ExpressionStatementOutcome(s: seq<Token>, i: nat)
    requires NumeralsWellFormed(s)
    ensures var st := ExpressionStatementAt(s, i); var tok := At(s, i);
      && st.statement.ExpressionStatement? && st.statement.token == tok
      && (st.statement.expression.Some? <==>
            tok.tokenType == Ident || (tok.tokenType == Int && ParseInt64(tok.literal).Some?))
      && (st.errors != [] <==> tok.tokenType == Int && ParseInt64(tok.literal).None?)
      && (st.errors != [] ==> st.errors == [IntegerErrorMessage(tok.literal)])
      && (st.cur == i + 1 <==> At(s, i + 1).tokenType == Semicolon)
      && (st.cur != i + 1 ==> st.cur == i)
  {
    var tok := At(s, i);
    if tok.tokenType == Int {
      assert i < |s|;
    }
  }

  /** What the parser builds from a token: a let names an identifier whose value is its
      text, a return or let carries its keyword token spelled as the keyword, and an
      expression is the identifier text or the value the integer text reads as. */
  predicate WellFormed(st: Statement) {
    match st
    case LetStatement(tok, name) =>
      && tok.tokenType == Let && tok.literal == "let"
      && name.token.tokenType == Ident && name.value == name.token.literal
    case NilLetStatement => true
    case ReturnStatement(tok) => tok.tokenType == Return && tok.literal == "return"
    case ExpressionStatement(tok, e) =>
      e.Some? ==>
        && e.value.token == tok
        && (e.value.Identifier? ==> tok.tokenType == Ident && e.value.value == tok.literal)
        && (e.value.IntegerLiteral? ==>
              tok.tokenType == Int && IsNumeral(tok.literal)
              && ParseInt64(tok.literal) == Some(e.value.number))
  }

  /** Every statement is well formed and records at most one error. */
  lemma StatementWellFormed(s: seq<Token>, i: nat, st: Step)
    requires NumeralsWellFormed(s) && KeywordsSpelled(s) && StatementAt(s, i) == Some(st)
    ensures WellFormed(st.statement) && |st.errors| <= 1
  {
    var tok := At(s, i);
    if tok.tokenType == Let || tok.tokenType == Return {
      assert i < |s| && IsKeyword(s[i].tokenType);
      LookupIdentKeywords(tok.literal);
    } else {
      ExpressionStatementOutcome(s, i);
    }
  }

  // ---------------------------------------------------------------------------------------
  // The program loop

  /** Whatever the program loop returns: one entry per loop turn, each consuming at least
      one token, each well formed and each with at most one error. */
  lemma {:induction false} ProgramInvariants(s: seq<Token>, i: nat)
    requires NumeralsWellFormed(s) && KeywordsSpelled(s) && ProgramFrom(s, i).Some?
    decreases |s| - i
    ensures var r := ProgramFrom(s, i).value;
      && |r.errors| <= |r.statements|
      && |r.statements| <= (if i < |s| then |s| - i else 0)
      && forall k :: 0 <= k < |r.statements| ==> WellFormed(r.statements[k])
  {
    if At(s, i).tokenType != Eof {
      var st, rest := ProgramFromStep(s, i, ProgramFrom(s, i).value);
      assert StatementAt(s, i) == Some(st);
      StatementWellFormed(s, i, st);
      ProgramInvariants(s, st.cur + 1);
      var r := ProgramFrom(s, i).value;
      forall k | 0 <= k < |r.statements| ensures WellFormed(r.statements[k]) {
        if k > 0 {
          assert r.statements[k] == rest.statements[k - 1];
        }
      }
    }
  }

  /** A token stream without `let` or `return` never makes the program loop hang, and every
      entry is then an expression statement. */
  lemma {:induction false} ProgramEndsWithoutSkips(s: seq<Token>, i: nat)
    requires NumeralsWellFormed(s)
    requires forall k :: i <= k < |s| ==> s[k].tokenType != Let && s[k].tokenType != Return
    decreases |s| - i
    ensures ProgramFrom(s, i).Some?
    ensures forall k :: 0 <= k < |ProgramFrom(s, i).value.statements| ==>
      ProgramFrom(s, i).value.statements[k].ExpressionStatement?
  {
    if At(s, i).tokenType != Eof {
      var st := StatementAt(s, i).value;
      StatementStaysInStream(s, i);
      ProgramEndsWithoutSkips(s, st.cur + 1);
      var r := ProgramFrom(s, i).value;
      var rest := ProgramFrom(s, st.cur + 1).value;
      forall k | 0 <= k < |r.statements| ensures r.statements[k].ExpressionStatement? {
        if k > 0 {
          assert r.statements[k] == rest.statements[k - 1];
        }
      }
    }
  }

  /** A `return` with no `;` after it makes the whole program loop hang. */
  lemma ProgramHangsWithoutSemicolon(s: seq<Token>, i: nat)
    requires NumeralsWellFormed(s) && At(s, i).tokenType == Return
    requires forall m :: i < m ==> At(s, m).tokenType != Semicolon
    ensures ProgramFrom(s, i).None?
  {
    ReturnStatementOutcome(s, i);
  }

  /** A `let` that reaches its skip loop, its IDENT and `=` present, with no `;` from the
      `=` on, makes the whole program loop hang. */
  lemma LetHangsWithoutSemicolon(s: seq<Token>, i: nat)
    requires NumeralsWellFormed(s) && At(s, i).tokenType == Let
    requires At(s, i + 1).tokenType == Ident && At(s, i + 2).tokenType == Assign
    requires forall m :: i + 2 <= m ==> At(s, m).tokenType != Semicolon
    ensures ProgramFrom(s, i).None?
  {
    var r := FirstSemicolon(s, i + 2);
    assert r.Some? ==> At(s, r.value).tokenType == Semicolon;
  }

  /** The tokens of `let x 5;`, as the lexer produces them. */
  const MissingAssignTokens: seq<Token> :=
    [Token(Let, "let"), Token(Ident, "x"), Token(Int, "5"), Token(Semicolon, ";"), Token(Eof, [])]

  /** The lexer turns `let x 5;` into exactly these tokens. */
  lemma MissingAssignLexed()
    ensures Toks("let x 5;", 0) == MissingAssignTokens
  {
    var input: seq<byte> := "let x 5;";
    MissingAssignWords();
    MissingAssignTail();
    ToksStep(input, 3);
    assert Toks(input, 3) == MissingAssignTokens[1..];
    ToksStep(input, 0);
  }

  /** `5;` at the end of `let x 5;` is INT `5`, `;` and the final EOF. */
  lemma MissingAssignTail()
    ensures Toks("let x 5;", 5) == MissingAssignTokens[2..]
  {
    var input: seq<byte> := "let x 5;";
    LexPastEnd(input, 8);
    assert Lex(input, 7) == Scan(Token(Semicolon, ";"), 8);
    assert Toks(input, 7) == MissingAssignTokens[3..];
    assert SkipWs(input, 5) == 6 && DigitRunEnd(input, 7) == 7 && DigitRunEnd(input, 6) == 7;
    assert input[6..7] == "5";
    assert Lex(input, 5) == Scan(Token(Int, "5"), 7);
  }

  /** The two words of `let x 5;`: the keyword `let`, then the identifier `x`. */
  lemma MissingAssignWords()
    ensures Lex("let x 5;", 0) == Scan(Token(Let, "let"), 3)
    ensures Lex("let x 5;", 3) == Scan(Token(Ident, "x"), 5)
  {
    var input: seq<byte> := "let x 5;";
    assert SkipWs(input, 3) == 4 && LetterRunEnd(input, 5) == 5 && LetterRunEnd(input, 4) == 5;
    assert input[4..5] == "x" && LookupIdent("x") == Ident;
    assert LetterRunEnd(input, 3) == 3 && LetterRunEnd(input, 0) == 3;
    assert input[0..3] == "let";
    LookupIdentKeywords("let");
  }

  /** In `let x 5;` the let fails on the missing `=`: one error naming ASSIGN and INT, and the
      current token is left on `x`. */
  lemma MissingAssignLetExample()
    ensures NumeralsWellFormed(MissingAssignTokens)
    ensures StatementAt(MissingAssignTokens, 0) ==
      Some(Step(NilLetStatement, 1, [PeekErrorMessage(Assign, Int)]))
  {
    var s := MissingAssignTokens;
    assert NumeralsWellFormed(s);
    assert At(s, 1).tokenType == Ident && At(s, 2).tokenType == Int;
  }

  /** After the loop's advance past `x`, `5;` is an integer expression statement with value 5
      that consumes the `;`, and EOF follows. */
  lemma MissingAssignIntegerExample()
    ensures NumeralsWellFormed(MissingAssignTokens)
    ensures StatementAt(MissingAssignTokens, 2) ==
      Some(Step(ExpressionStatement(Token(Int, "5"), Some(IntegerLiteral(Token(Int, "5"), 5))), 3, []))
    ensures At(MissingAssignTokens, 4).tokenType == Eof
  {
    var s := MissingAssignTokens;
    assert NumeralsWellFormed(s);
    IntegerLiteralExamples();
    assert At(s, 2) == Token(Int, "5") && At(s, 3).tokenType == Semicolon;
  }

  // ---------------------------------------------------------------------------------------
  // Whole source texts

  /** Empty or blank input gives no statements and no errors. */
  lemma BlankInputParsesEmpty(input: seq<byte>)
    requires forall i :: 0 <= i < |input| ==> IsWhitespace(input[i])
    ensures Parse(input) == Some(ParseResult([], []))
  {
    ToksOfBlankInput(input, 0);
  }

  /** Whatever a source text parses to is well formed, with no more errors than entries. */
  lemma ParsedProgramWellFormed(input: seq<byte>)
    requires Parse(input).Some?
    ensures |Parse(input).value.errors| <= |Parse(input).value.statements|
    ensures forall k :: 0 <= k < |Parse(input).value.statements| ==>
      WellFormed(Parse(input).value.statements[k])
  {
    ToksNumerals(input, 0);
    ToksKeywordsSpelled(input, 0);
    ProgramInvariants(Toks(input, 0), 0);
  }
}
