/** The statement parser of the mana language: a `Parser` object with a two-token window
    over a `Lexer`, proved against pure functions over the token stream. */
module Parsing {
  import opened Tokens
  import opened Lexing

  // ---------------------------------------------------------------------------------------
  // AST nodes, with the fields this parser fills in

  datatype Expression =
    | Identifier(token: Token, value: seq<byte>)
    | IntegerLiteral(token: Token, number: int)

  type Identifier = e: Expression | e.Identifier? witness Identifier(Token(Ident, "x"), "x")

  datatype Statement =
    | LetStatement(token: Token, name: Identifier)
      /** A let statement that failed: a nil `*LetStatement` inside a non-nil `Statement`,
          which the program keeps like any other entry. */
    | NilLetStatement
    | ReturnStatement(token: Token)
    | ExpressionStatement(token: Token, expression: Option<Expression>)

  datatype Program = Program(statements: seq<Statement>)

  /** The lowest precedence, the only one this version passes to `ParseExpression`. */
  const LOWEST: int := 1

  // ---------------------------------------------------------------------------------------
  // Integer text: strconv.ParseInt(lit, 0, 64) on the digit strings the lexer hands over

  const MaxInt64: int := 0x7FFF_FFFF_FFFF_FFFF

  function DigitValue(c: byte): nat
    requires IsDigit(c)
  {
    c as int - '0' as int
  }

  /** The value of a digit string read in the given base (digits may exceed the base). */
  function Value(digits: seq<byte>, base: nat): nat
    requires forall i :: 0 <= i < |digits| ==> IsDigit(digits[i])
  {
    if digits == [] then 0
    else Value(digits[..|digits| - 1], base) * base + DigitValue(digits[|digits| - 1])
  }

  /** Every digit is a digit of the base. */
  predicate InBase(digits: seq<byte>, base: nat)
    requires forall i :: 0 <= i < |digits| ==> IsDigit(digits[i])
  {
    forall i :: 0 <= i < |digits| ==> DigitValue(digits[i]) < base
  }

  /** Base 0 with a digit string: a leading `0` selects octal for the rest, otherwise
      decimal; a digit outside the base is a syntax error and a value above 2^63-1 a range
      error. Either error is None. */
  function ParseInt64(literal: seq<byte>): (r: Option<int>)
    requires IsNumeral(literal)
    ensures r.Some? ==> 0 <= r.value <= MaxInt64
  {
    var base := if literal[0] == '0' then 8 else 10;
    var digits := if literal[0] == '0' then literal[1..] else literal;
    if !InBase(digits, base) then None
    else if Value(digits, base) > MaxInt64 then None
    else Some(Value(digits, base))
  }

  // ---------------------------------------------------------------------------------------
  // Error messages

  /** `expected next token to be %s, got %s instead` with the two token type names. */
  function PeekErrorMessage(expected: TokenType, got: TokenType): seq<byte> {
    "expected next token to be " + Name(expected) + ", got " + Name(got) + " instead"
  }

  /** `could not parse %q as integer`; %q of a digit string is the string in double quotes. */
  function IntegerErrorMessage(literal: seq<byte>): seq<byte> {
    "could not parse \"" + literal + "\" as integer"
  }

  // ---------------------------------------------------------------------------------------
  // The parser as functions of the token stream S, with the current token at index i.
  // Past the end of S every token is EOF.

  function At(s: seq<Token>, i: nat): (t: Token)
    ensures i < |s| ==> t == s[i]
    ensures 0 < |s| <= i + 1 && s[|s| - 1] == Token(Eof, []) ==> t == Token(Eof, [])
  {
    if i < |s| then s[i] else Token(Eof, [])
  }

  ghost predicate NumeralsWellFormed(s: seq<Token>) {
    forall i :: 0 <= i < |s| && s[i].tokenType == Int ==> IsNumeral(s[i].literal)
  }

  /** The prefix handlers the parser registers. */
  datatype PrefixParseFn = ParseIdentifierFn | ParseIntegerLiteralFn

  const PrefixTable: map<TokenType, PrefixParseFn> :=
    map[Ident := ParseIdentifierFn, Int := ParseIntegerLiteralFn]

  /** First index at or after j holding a semicolon; None when there is none, in which case
      a loop that skips to `;` never ends. */
  function FirstSemicolon(s: seq<Token>, j: nat): (r: Option<nat>)
    decreases |s| - j
    ensures r.Some? ==> j <= r.value < |s| && s[r.value].tokenType == Semicolon
    ensures r.Some? ==> forall m :: j <= m < r.value ==> At(s, m).tokenType != Semicolon
    ensures r.None? ==> forall m :: j <= m ==> At(s, m).tokenType != Semicolon
  {
    if j >= |s| then None
    else if s[j].tokenType == Semicolon then Some(j)
    else FirstSemicolon(s, j + 1)
  }

  datatype ExpressionResult = ExpressionResult(expression: Option<Expression>, errors: seq<seq<byte>>)

  /** An expression at i: the registered prefix handler for the current token, if any. */
  function ExpressionAt(s: seq<Token>, i: nat): ExpressionResult
    requires NumeralsWellFormed(s)
  {
    var tok := At(s, i);
    if tok.tokenType !in PrefixTable then ExpressionResult(None, [])
    else match PrefixTable[tok.tokenType]
      case ParseIdentifierFn => ExpressionResult(Some(Identifier(tok, tok.literal)), [])
      case ParseIntegerLiteralFn =>
        match ParseInt64(tok.literal)
        case Some(v) => ExpressionResult(Some(IntegerLiteral(tok, v)), [])
        case None => ExpressionResult(None, [IntegerErrorMessage(tok.literal)])
  }

  /** One parsed statement: the entry appended, the index of the current token afterwards,
      and the errors recorded. */
  datatype Step = Step(statement: Statement, cur: nat, errors: seq<seq<byte>>)

  function LetStatementAt(s: seq<Token>, i: nat): Option<Step> {
    if At(s, i + 1).tokenType != Ident then
      Some(Step(NilLetStatement, i, [PeekErrorMessage(Ident, At(s, i + 1).tokenType)]))
    else if At(s, i + 2).tokenType != Assign then
      Some(Step(NilLetStatement, i + 1, [PeekErrorMessage(Assign, At(s, i + 2).tokenType)]))
    else match FirstSemicolon(s, i + 2)
      case None => None
      case Some(j) => Some(Step(LetStatement(At(s, i), Identifier(At(s, i + 1), At(s, i + 1).literal)), j, []))
  }

  /** A let statement either parses, ending on the first `;` after its `=` with no error, or
      fails on the first token that is not the expected IDENT or `=`, leaving the current
      token where it was and recording exactly one error. */
  lemma LetStatementOutcome(s: seq<Token>, i: nat, st: Step)
    requires NumeralsWellFormed(s) && At(s, i).tokenType == Let && StepAt(s, i, st)
    ensures st.statement.LetStatement? || st.statement.NilLetStatement?
    ensures st.statement.LetStatement? <==>
      At(s, i + 1).tokenType == Ident && At(s, i + 2).tokenType == Assign
    ensures st.statement.LetStatement? ==>
      && st.errors == []
      && st.statement.token == At(s, i)
      && st.statement.name.token == At(s, i + 1)
      && st.statement.name.value == At(s, i + 1).literal
      && i + 2 <= st.cur < |s| && s[st.cur].tokenType == Semicolon
      && (forall m :: i + 2 <= m < st.cur ==> At(s, m).tokenType != Semicolon)
    ensures st.statement.NilLetStatement? ==>
      && (At(s, i + 1).tokenType != Ident ==>
            st.cur == i && st.errors == [PeekErrorMessage(Ident, At(s, i + 1).tokenType)])
      && (At(s, i + 1).tokenType == Ident ==>
            st.cur == i + 1 && st.errors == [PeekErrorMessage(Assign, At(s, i + 2).tokenType)])
  {
    assert StatementAt(s, i) == Some(st);
  }

  function ReturnStatementAt(s: seq<Token>, i: nat): Option<Step> {
    match FirstSemicolon(s, i + 1)
    case None => None
    case Some(j) => Some(Step(ReturnStatement(At(s, i)), j, []))
  }

  function ExpressionStatementAt(s: seq<Token>, i: nat): Step
    requires NumeralsWellFormed(s)
  {
    var e := ExpressionAt(s, i);
    Step(ExpressionStatement(At(s, i), e.expression),
         if At(s, i + 1).tokenType == Semicolon then i + 1 else i,
         e.errors)
  }

  /** The statement at i; None when its skip to `;` never ends. */
  function StatementAt(s: seq<Token>, i: nat): Option<Step>
    requires NumeralsWellFormed(s)
  {
    if At(s, i).tokenType == Let then LetStatementAt(s, i)
    else if At(s, i).tokenType == Return then ReturnStatementAt(s, i)
    else Some(ExpressionStatementAt(s, i))
  }

  /** The index a statement at i leaves the current token on stays inside the stream. */
  lemma StatementStaysInStream(s: seq<Token>, i: nat)
    requires NumeralsWellFormed(s) && i < |s| && StatementAt(s, i).Some?
    ensures i <= StatementAt(s, i).value.cur < |s|
  {
  }

  /** The program from i on ends, with statements and errors `r`. Stated through a
      quantifier so that the statement functions are unfolded only where a proof asks. */
  ghost predicate ProgramAt(s: seq<Token>, i: nat, r: ParseResult)
    requires NumeralsWellFormed(s)
  {
    forall k :: i <= k <= i ==> ProgramFrom(s, k) == Some(r)
  }

  lemma ProgramAtIntro(s: seq<Token>, i: nat)
    requires NumeralsWellFormed(s) && ProgramFrom(s, i).Some?
    ensures ProgramAt(s, i, ProgramFrom(s, i).value)
  {
  }

  /** Moving one parsed statement from the remaining program to the part already built. */
  lemma ResultShift(whole: ParseResult, built: seq<Statement>, recorded: seq<seq<byte>>,
                    remaining: ParseResult, st: Step, rest: ParseResult)
    requires whole == ParseResult(built + remaining.statements, recorded + remaining.errors)
    requires remaining.statements == [st.statement] + rest.statements
    requires remaining.errors == st.errors + rest.errors
    ensures whole == ParseResult((built + [st.statement]) + rest.statements, (recorded + st.errors) + rest.errors)
  {
    assert built + remaining.statements == (built + [st.statement]) + rest.statements;
    assert recorded + remaining.errors == (recorded + st.errors) + rest.errors;
  }

  /** At EOF the program is over: no statements, no errors. */
  lemma ProgramAtEof(s: seq<Token>, i: nat, r: ParseResult)
    requires NumeralsWellFormed(s) && At(s, i).tokenType == Eof && ProgramAt(s, i, r)
    ensures r == ParseResult([], [])
  {
    assert ProgramFrom(s, i) == Some(r);
  }

  /** The statement at i ends, as `st`. Stated through a quantifier, like `ProgramAt`. */
  ghost predicate StepAt(s: seq<Token>, i: nat, st: Step)
    requires NumeralsWellFormed(s)
  {
    forall k :: i <= k <= i ==> StatementAt(s, k) == Some(st)
  }

  /** One turn of the program loop: the statement at i, then the program after it. */
  lemma ProgramFromStep(s: seq<Token>, i: nat, whole: ParseResult) returns (st: Step, rest: ParseResult)
    requires NumeralsWellFormed(s) && At(s, i).tokenType != Eof && ProgramAt(s, i, whole)
    ensures StepAt(s, i, st) && i <= st.cur < |s|
    ensures ProgramAt(s, st.cur + 1, rest)
    ensures whole.statements == [st.statement] + rest.statements
    ensures whole.errors == st.errors + rest.errors
  {
    assert ProgramFrom(s, i) == Some(whole);
    st, rest := ProgramFromUnfold(s, i, whole);
    StepAtIntro(s, i, st);
    ProgramAtIntro(s, st.cur + 1);
  }

  lemma StepAtIntro(s: seq<Token>, i: nat, st: Step)
    requires NumeralsWellFormed(s) && StatementAt(s, i) == Some(st)
    ensures StepAt(s, i, st)
  {
  }

  lemma ProgramFromUnfold(s: seq<Token>, i: nat, whole: ParseResult) returns (st: Step, rest: ParseResult)
    requires NumeralsWellFormed(s) && At(s, i).tokenType != Eof && ProgramFrom(s, i) == Some(whole)
    ensures StatementAt(s, i) == Some(st) && i <= st.cur < |s|
    ensures ProgramFrom(s, st.cur + 1) == Some(rest)
    ensures whole.statements == [st.statement] + rest.statements
    ensures whole.errors == st.errors + rest.errors
  {
    StatementStaysInStream(s, i);
    st := StatementAt(s, i).value;
    rest := ProgramFrom(s, st.cur + 1).value;
  }

  datatype ParseResult = ParseResult(statements: seq<Statement>, errors: seq<seq<byte>>)

  /** The statements and errors of the program from i on; None when it never ends. */
  function ProgramFrom(s: seq<Token>, i: nat): Option<ParseResult>
    requires NumeralsWellFormed(s)
    decreases |s| - i
  {
    if At(s, i).tokenType == Eof then Some(ParseResult([], []))
    else
      match StatementAt(s, i)
      case None => None
      case Some(st) =>
        StatementStaysInStream(s, i);
        match ProgramFrom(s, st.cur + 1)
        case None => None
        case Some(rest) => Some(ParseResult([st.statement] + rest.statements, st.errors + rest.errors))
  }

  /** Parsing a whole source text. */
  function Parse(input: seq<byte>): Option<ParseResult> {
    ToksNumerals(input, 0);
    ProgramFrom(Toks(input, 0), 0)
  }

  // ---------------------------------------------------------------------------------------
  // The parser object

  class Parser {
    const l: Lexer
    var errors: seq<seq<byte>>
    var curToken: Token
    var peekToken: Token
    var prefixParseFns: map<TokenType, PrefixParseFn>

    /** The tokens the lexer produces from where it stood when the parser was made. */
    ghost const stream: seq<Token>
    /** How many tokens the parser has pulled from the lexer. */
    ghost var pulled: nat

    /** The lexer is exactly `pulled` tokens into the stream, and the peek token is the
        last one pulled. */
    ghost predicate Synced()
      reads this, l
    {
      && l.Valid()
      && NumeralsWellFormed(stream)
      && (pulled < |stream| ==> LexerAt(l.input, l.position, stream[pulled..]))
      && (pulled >= |stream| ==> l.position > |l.input|)
      && (pulled >= 1 ==> peekToken == At(stream, pulled - 1))
    }

    ghost predicate Valid()
      reads this, l
    {
      && Synced()
      && pulled >= 2
      && curToken == At(stream, pulled - 2)
      && prefixParseFns == PrefixTable
    }

    /** Index of the current token in the stream. */
    ghost function Cur(): nat
      reads this
      requires pulled >= 2
    {
      pulled - 2
    }

    constructor New(l: Lexer)
      requires l.Valid()
      modifies l
      ensures Valid() && this.l == l && errors == []
      ensures stream == Toks(l.input, old(l.position)) && Cur() == 0
      ensures curToken == At(stream, 0) && peekToken == At(stream, 1)
    {
      this.l := l;
      errors := [];
      // stands in for Go's zero Token (type ""); both are overwritten before they are read
      curToken, peekToken := Token(Illegal, []), Token(Illegal, []);
      prefixParseFns := map[];
      stream := Toks(l.input, l.position);
      pulled := 0;
      new;
      ToksNumerals(l.input, l.position);
      NextToken();
      NextToken();
      RegisterPrefix(Ident, ParseIdentifierFn);
      RegisterPrefix(Int, ParseIntegerLiteralFn);
    }

    /** Moves the window one token ahead, pulling one token from the lexer. */
    method NextToken()
      requires Synced()
      modifies this, l
      ensures Synced() && pulled == old(pulled) + 1
      ensures curToken == old(peekToken) && peekToken == At(stream, old(pulled))
      ensures old(pulled) >= 1 ==> curToken == At(stream, pulled - 2)
      ensures errors == old(errors) && prefixParseFns == old(prefixParseFns)
    {
      StreamAdvance(l.input, stream, pulled, l.position);
      curToken := peekToken;
      peekToken := l.NextToken();
      pulled := pulled + 1;
    }

    method RegisterPrefix(tokenType: TokenType, fn: PrefixParseFn)
      modifies this`prefixParseFns
      ensures prefixParseFns == old(prefixParseFns)[tokenType := fn]
    {
      prefixParseFns := prefixParseFns[tokenType := fn];
    }

    /** Whether the current token, the stream's token at the cursor, has type t. */
    predicate CurTokenIs(t: TokenType)
      reads this, l
      ensures Valid() ==> (CurTokenIs(t) <==> At(stream, Cur()).tokenType == t)
    {
      curToken.tokenType == t
    }

    /** Whether the peek token, the stream's token after the cursor, has type t. */
    predicate PeekTokenIs(t: TokenType)
      reads this, l
      ensures Valid() ==> (PeekTokenIs(t) <==> At(stream, Cur() + 1).tokenType == t)
    {
      peekToken.tokenType == t
    }

    function Errors(): seq<seq<byte>>
      reads this
    {
      errors
    }

    method PeekError(t: TokenType)
      modifies this`errors
      ensures errors == old(errors) + [PeekErrorMessage(t, peekToken.tokenType)]
    {
      errors := errors + [PeekErrorMessage(t, peekToken.tokenType)];
    }

    /** On a match, advances once; otherwise records one error and leaves the window alone. */
    method ExpectPeek(t: TokenType) returns (ok: bool)
      requires Valid()
      modifies this, l
      ensures Valid() && ok == (old(peekToken).tokenType == t)
      ensures ok ==> Cur() == old(Cur()) + 1 && errors == old(errors)
      ensures !ok ==> Cur() == old(Cur()) && curToken == old(curToken) && peekToken == old(peekToken)
      ensures !ok ==> errors == old(errors) + [PeekErrorMessage(t, old(peekToken).tokenType)]
    {
      if PeekTokenIs(t) {
        NextToken();
        ok := true;
      } else {
        PeekError(t);
        ok := false;
      }
    }

    function ParseIdentifier(): (e: Expression)
      reads this
      ensures e.Identifier? && e.token == curToken && e.value == curToken.literal
    {
      Identifier(curToken, curToken.literal)
    }

    method ParseIntegerLiteral() returns (e: Option<Expression>)
      requires IsNumeral(curToken.literal)
      modifies this`errors
      ensures ParseInt64(curToken.literal).Some? ==>
        e == Some(IntegerLiteral(curToken, ParseInt64(curToken.literal).value)) && errors == old(errors)
      ensures ParseInt64(curToken.literal).None? ==>
        e == None && errors == old(errors) + [IntegerErrorMessage(curToken.literal)]
    {
      var value := ParseInt64(curToken.literal);
      if value.None? {
        errors := errors + [IntegerErrorMessage(curToken.literal)];
        return None;
      }
      e := Some(IntegerLiteral(curToken, value.value));
    }

    /** Only the prefix handler runs: this version has no infix loop, so the precedence
        is not consulted. */
    method ParseExpression(precedence: int) returns (e: Option<Expression>)
      requires Valid()
      modifies this`errors
      ensures e == ExpressionAt(stream, Cur()).expression
      ensures errors == old(errors) + ExpressionAt(stream, Cur()).errors
    {
      if curToken.tokenType !in prefixParseFns {
        return None;
      }
      match prefixParseFns[curToken.tokenType]
      case ParseIdentifierFn =>
        e := Some(ParseIdentifier());
      case ParseIntegerLiteralFn =>
        e := ParseIntegerLiteral();
    }

    method ParseExpressionStatement() returns (stmt: Statement)
      requires Valid()
      modifies this, l
      ensures Valid()
      ensures var st := ExpressionStatementAt(stream, old(Cur()));
        stmt == st.statement && Cur() == st.cur && errors == old(errors) + st.errors
    {
      var token := curToken;
      var expression := ParseExpression(LOWEST);
      if PeekTokenIs(Semicolon) {
        NextToken();
      }
      stmt := ExpressionStatement(token, expression);
    }

    /** The loop shared by let and return statements: advance until the current token is
        `;`, which ends on the first `;` from the current token on. */
    method SkipToSemicolon(ghost j: nat)
      requires Valid() && Cur() <= j < |stream| && stream[j].tokenType == Semicolon
      requires forall m :: Cur() <= m < j ==> At(stream, m).tokenType != Semicolon
      modifies this, l
      ensures Valid() && Cur() == j && errors == old(errors)
    {
      while !CurTokenIs(Semicolon)
        invariant Valid() && Cur() <= j < |stream| && errors == old(errors)
        invariant stream[j].tokenType == Semicolon
        invariant forall m :: Cur() <= m < j ==> At(stream, m).tokenType != Semicolon
        decreases j - Cur()
      {
        NextToken();
      }
    }

    method ParseLetStatement(ghost st: Step) returns (stmt: Statement)
      requires Valid() && At(stream, Cur()).tokenType == Let && StepAt(stream, Cur(), st)
      modifies this, l
      ensures Valid()
      ensures stmt == st.statement && Cur() == st.cur && errors == old(errors) + st.errors
    {
      ghost var i := Cur();
      LetStatementOutcome(stream, i, st);
      var token := curToken;
      assert token == At(stream, i) && peekToken == At(stream, i + 1);
      var ok := ExpectPeek(Ident);
      if !ok {
        assert st.statement == NilLetStatement && st.cur == i;
        return NilLetStatement;
      }
      var name := Identifier(curToken, curToken.literal);
      assert curToken == At(stream, i + 1) && peekToken == At(stream, i + 2);
      ok := ExpectPeek(Assign);
      if !ok {
        assert st.statement == NilLetStatement && st.cur == i + 1;
        return NilLetStatement;
      }
      assert Cur() == i + 2 && st.statement == LetStatement(token, name);
      SkipToSemicolon(st.cur);
      stmt := LetStatement(token, name);
    }

    method ParseReturnStatement(ghost st: Step) returns (stmt: Statement)
      requires Valid() && ReturnStatementAt(stream, Cur()) == Some(st)
      modifies this, l
      ensures Valid()
      ensures stmt == st.statement && Cur() == st.cur && errors == old(errors) + st.errors
    {
      var token := curToken;
      NextToken();
      ghost var j := FirstSemicolon(stream, Cur()).value;
      SkipToSemicolon(j);
      stmt := ReturnStatement(token);
    }

    method ParseStatement(ghost st: Step) returns (stmt: Statement)
      requires Valid() && StepAt(stream, Cur(), st)
      modifies this, l
      ensures Valid()
      ensures stmt == st.statement && Cur() == st.cur && errors == old(errors) + st.errors
    {
      if curToken.tokenType == Let {
        stmt := ParseLetStatement(st);
      } else if curToken.tokenType == Return {
        assert StatementAt(stream, Cur()) == Some(st);
        stmt := ParseReturnStatement(st);
      } else {
        assert StatementAt(stream, Cur()) == Some(st);
        stmt := ParseExpressionStatement();
      }
    }

    /** Parses statements until the current token is EOF, appending one entry per statement.
        `whole` is what `ProgramFrom` gives from the current token on. */
    method ParseProgram(ghost whole: ParseResult) returns (program: Program)
      requires Valid() && ProgramAt(stream, Cur(), whole)
      modifies this, l
      ensures Valid() && curToken.tokenType == Eof
      ensures program.statements == whole.statements
      ensures errors == old(errors) + whole.errors
    {
      program := Program([]);
      ghost var remaining := whole;
      ghost var recorded: seq<seq<byte>> := [];
      while curToken.tokenType != Eof
        invariant Valid() && ProgramAt(stream, Cur(), remaining)
        invariant errors == old(errors) + recorded
        invariant whole == ParseResult(program.statements + remaining.statements, recorded + remaining.errors)
        decreases |stream| - Cur()
      {
        ghost var i := Cur();
        assert At(stream, i).tokenType != Eof;
        ghost var st, rest := ProgramFromStep(stream, i, remaining);
        ResultShift(whole, program.statements, recorded, remaining, st, rest);
        var stmt := ParseStatement(st);
        assert stmt == st.statement && Cur() == st.cur;
        assert (old(errors) + recorded) + st.errors == old(errors) + (recorded + st.errors);
        program := Program(program.statements + [stmt]);
        recorded := recorded + st.errors;
        NextToken();
        assert i < Cur() == st.cur + 1 <= |stream|;
        remaining := rest;
      }
      ProgramAtEof(stream, Cur(), remaining);
      assert program.statements + [] == program.statements;
      assert recorded + [] == recorded;
    }
  }

  /** The lexer at `position` produces exactly `rest` up to the end of the input. Stated
      through a quantifier so that the scanner is unfolded only where a proof asks for it. */
  ghost predicate LexerAt(input: seq<byte>, position: nat, rest: seq<Token>) {
    forall p :: position <= p <= position ==> Toks(input, p) == rest
  }

  /** The lexer step behind `Parser.NextToken`: the next token pulled is the stream's next
      one, and the lexer stays in step with the stream. */
  lemma StreamAdvance(input: seq<byte>, s: seq<Token>, k: nat, position: nat)
    requires k < |s| ==> LexerAt(input, position, s[k..])
    requires k >= |s| ==> position > |input|
    ensures var r := Lex(input, position);
      && r.token == At(s, k)
      && (k + 1 < |s| ==> LexerAt(input, r.next, s[k + 1..]))
      && (k + 1 >= |s| ==> r.next > |input|)
  {
    if k < |s| {
      assert Toks(input, position) == s[k..];
      ToksStep(input, position);
      assert s[k..][0] == s[k] && s[k + 1..] == s[k..][1..];
    } else {
      LexPastEnd(input, position);
    }
  }

  /** `parse(source)`: a fresh lexer and parser over the text, the program and the errors. */
  method ParseSource(input: seq<byte>) returns (program: Program, errors: seq<seq<byte>>)
    requires Parse(input).Some?
    ensures program.statements == Parse(input).value.statements
    ensures errors == Parse(input).value.errors
  {
    var l := new Lexer.New(input);
    var p := new Parser.New(l);
    ProgramAtIntro(p.stream, p.Cur());
    program := p.ParseProgram(Parse(input).value);
    errors := p.Errors();
  }
}
