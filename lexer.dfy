/** The byte-cursor scanner of the mana language: a `Lexer` object whose methods move a
    cursor over the input, proved against the pure scanning function `Lex`. */
module Lexing {
  import opened Tokens

  predicate IsLetter(ch: byte) {
    'a' <= ch <= 'z' || 'A' <= ch <= 'Z' || ch == '_'
  }

  predicate IsDigit(ch: byte) {
    '0' <= ch <= '9'
  }

  /** The bytes the lexer skips between tokens; none of them starts a token or ends the input. */
  predicate IsWhitespace(ch: byte)
    ensures IsWhitespace(ch) ==> !IsLetter(ch) && !IsDigit(ch) && ch != '\0'
  {
    ch == ' ' || ch == '\t' || ch == '\n' || ch == '\r'
  }

  /** The byte the cursor sees at index i: NUL once i is past the end of the input. */
  function ByteAt(input: seq<byte>, i: nat): byte
  {
    if i < |input| then input[i] else '\0'
  }

  /** Where the cursor stands after skipping whitespace from p. */
  function SkipWs(input: seq<byte>, p: nat): (q: nat)
    decreases |input| - p
    ensures p <= q && (p <= |input| ==> q <= |input|)
    ensures !IsWhitespace(ByteAt(input, q))
    ensures forall m :: p <= m < q ==> m < |input| && IsWhitespace(input[m])
  {
    if p < |input| && IsWhitespace(input[p]) then SkipWs(input, p + 1) else p
  }

  /** End of the maximal run of letters starting at p. */
  function LetterRunEnd(input: seq<byte>, p: nat): (q: nat)
    decreases |input| - p
    ensures p <= q && (p <= |input| ==> q <= |input|)
    ensures !IsLetter(ByteAt(input, q))
    ensures forall m :: p <= m < q ==> m < |input| && IsLetter(input[m])
  {
    if p < |input| && IsLetter(input[p]) then LetterRunEnd(input, p + 1) else p
  }

  /** End of the maximal run of digits starting at p. */
  function DigitRunEnd(input: seq<byte>, p: nat): (q: nat)
    decreases |input| - p
    ensures p <= q && (p <= |input| ==> q <= |input|)
    ensures !IsDigit(ByteAt(input, q))
    ensures forall m :: p <= m < q ==> m < |input| && IsDigit(input[m])
  {
    if p < |input| && IsDigit(input[p]) then DigitRunEnd(input, p + 1) else p
  }

  /** A one-byte token whose literal is that byte. */
  function NewToken(tokenType: TokenType, ch: byte): Token {
    Token(tokenType, [ch])
  }

  /** Go's `string(ch)` for a byte ch: the UTF-8 encoding of the code point ch. */
  function GoByteString(ch: byte): (s: seq<byte>)
    ensures ch as int < 0x80 ==> s == [ch]
    ensures ch as int >= 0x80 ==> |s| == 2
  {
    if ch as int < 0x80 then [ch]
    else [(0xC0 + ch as int / 64) as char, (0x80 + ch as int % 64) as char]
  }

  /** `newToken` as the Go code writes it, literal `string(ch)`. */
  function NewTokenAsWritten(tokenType: TokenType, ch: byte): Token {
    Token(tokenType, GoByteString(ch))
  }

  /** The outcome of one scan: the token and the cursor position after it. */
  datatype Scan = Scan(token: Token, next: nat)

  /** The token the scanner produces with its cursor at p, and where the cursor ends. */
  function Lex(input: seq<byte>, p: nat): (r: Scan)
    ensures r.next > p
  {
    var s := SkipWs(input, p);
    var c := ByteAt(input, s);
    match c
    case '=' =>
      if ByteAt(input, s + 1) == '=' then Scan(Token(Eq, "=="), s + 2)
      else Scan(NewToken(Assign, c), s + 1)
    case '+' => Scan(NewToken(Plus, c), s + 1)
    case '-' => Scan(NewToken(Minus, c), s + 1)
    case '/' => Scan(NewToken(Slash, c), s + 1)
    case '*' => Scan(NewToken(Asterisk, c), s + 1)
    case '<' => Scan(NewToken(Lt, c), s + 1)
    case '>' => Scan(NewToken(Gt, c), s + 1)
    case '!' =>
      if ByteAt(input, s + 1) == '=' then Scan(Token(NotEq, "!="), s + 2)
      else Scan(NewToken(Bang, c), s + 1)
    case ';' => Scan(NewToken(Semicolon, c), s + 1)
    case '(' => Scan(NewToken(LParen, c), s + 1)
    case ')' => Scan(NewToken(RParen, c), s + 1)
    case ',' => Scan(NewToken(Comma, c), s + 1)
    case '{' => Scan(NewToken(LBrace, c), s + 1)
    case '}' => Scan(NewToken(RBrace, c), s + 1)
    case '\0' => Scan(Token(Eof, []), s + 1)
    case _ =>
      if IsLetter(c) then
        var e := LetterRunEnd(input, s);
        Scan(Token(LookupIdent(input[s..e]), input[s..e]), e)
      else if IsDigit(c) then
        var e := DigitRunEnd(input, s);
        Scan(Token(Int, input[s..e]), e)
      else
        Scan(NewToken(Illegal, c), s + 1)
  }

  /** The tokens produced from cursor p up to and including the EOF at the end of the
      input, after which the cursor has passed the end and every token is EOF. */
  function Toks(input: seq<byte>, p: nat): (ts: seq<Token>)
    decreases |input| + 1 - p
  {
    var r := Lex(input, p);
    if r.next > |input| then [r.token] else [r.token] + Toks(input, r.next)
  }

  /** The cursor position after n calls from p. */
  function PositionAfter(input: seq<byte>, p: nat, n: nat): nat
    decreases n
  {
    if n == 0 then p else PositionAfter(input, Lex(input, p).next, n - 1)
  }

  /** The single-byte symbols the scanner recognises. */
  predicate IsSymbol(c: byte) {
    || c == '=' || c == '+' || c == '-' || c == '/' || c == '*' || c == '<' || c == '>'
    || c == '!' || c == ';' || c == '(' || c == ')' || c == ',' || c == '{' || c == '}'
  }

  /** A nonempty run of digits, the only literal an INT token can carry. */
  predicate IsNumeral(literal: seq<byte>) {
    |literal| > 0 && forall i :: 0 <= i < |literal| ==> IsDigit(literal[i])
  }

  /** The input with whitespace and NUL bytes removed. */
  function Visible(s: seq<byte>): seq<byte> {
    if s == [] then []
    else (if IsWhitespace(s[0]) || s[0] == '\0' then [] else [s[0]]) + Visible(s[1..])
  }

  /** The literals of a token sequence, concatenated. */
  function Literals(ts: seq<Token>): seq<byte> {
    if ts == [] then [] else ts[0].literal + Literals(ts[1..])
  }

  /** Past the end of the input a scan yields EOF with an empty literal and moves one step. */
  lemma LexPastEnd(input: seq<byte>, p: nat)
    requires p >= |input|
    ensures Lex(input, p) == Scan(Token(Eof, []), p + 1)
  {
  }

  /** Once the input is exhausted, every later call returns EOF with an empty literal, forever. */
  lemma {:induction false} EofForever(input: seq<byte>, p: nat, n: nat)
    requires p >= |input|
    ensures PositionAfter(input, p, n) == p + n
    ensures Lex(input, PositionAfter(input, p, n)).token == Token(Eof, [])
    decreases n
  {
    LexPastEnd(input, p);
    if n > 0 {
      EofForever(input, p + 1, n - 1);
    }
  }

  /** A scan yields EOF exactly when the first non-whitespace byte is NUL (a NUL inside the
      input included); the literal is then empty and the cursor moves past that byte. */
  lemma LexEof(input: seq<byte>, p: nat)
    ensures var s := SkipWs(input, p); var r := Lex(input, p);
      && (r.token.tokenType == Eof <==> ByteAt(input, s) == '\0')
      && (r.token.tokenType == Eof ==> r.token == Token(Eof, []) && r.next == s + 1)
  {
  }

  /** Two-byte lookahead: `==` and `!=` are single tokens, a lone `=` or `!` is ASSIGN or BANG. */
  lemma LexTwoByteOperators(input: seq<byte>, p: nat)
    ensures var s := SkipWs(input, p); var r := Lex(input, p);
      && (ByteAt(input, s) == '=' && ByteAt(input, s + 1) == '=' ==> r == Scan(Token(Eq, "=="), s + 2))
      && (ByteAt(input, s) == '=' && ByteAt(input, s + 1) != '=' ==> r == Scan(Token(Assign, "="), s + 1))
      && (ByteAt(input, s) == '!' && ByteAt(input, s + 1) == '=' ==> r == Scan(Token(NotEq, "!="), s + 2))
      && (ByteAt(input, s) == '!' && ByteAt(input, s + 1) != '=' ==> r == Scan(Token(Bang, "!"), s + 1))
  {
  }

  /** An identifier or keyword is the maximal run of letters at the cursor, typed by the keyword table. */
  lemma LexIdentifier(input: seq<byte>, p: nat)
    requires IsLetter(ByteAt(input, SkipWs(input, p)))
    ensures var s := SkipWs(input, p); var r := Lex(input, p); var lit := r.token.literal;
      && s < r.next <= |input| && lit == input[s..r.next]
      && r.token.tokenType == LookupIdent(lit)
      && (forall i :: 0 <= i < |lit| ==> IsLetter(lit[i]))
      && !IsLetter(ByteAt(input, r.next))
  {
  }

  /** An INT literal is the maximal run of digits at the cursor. */
  lemma LexInteger(input: seq<byte>, p: nat)
    requires IsDigit(ByteAt(input, SkipWs(input, p)))
    ensures var s := SkipWs(input, p); var r := Lex(input, p); var lit := r.token.literal;
      && s < r.next <= |input| && lit == input[s..r.next]
      && r.token.tokenType == Int && IsNumeral(lit)
      && !IsDigit(ByteAt(input, r.next))
  {
  }

  /** Any other byte yields ILLEGAL with that byte as literal, and the cursor moves by one. */
  lemma LexIllegal(input: seq<byte>, p: nat)
    ensures var s := SkipWs(input, p); var c := ByteAt(input, s); var r := Lex(input, p);
      r.token.tokenType == Illegal <==>
        !IsSymbol(c) && c != '\0' && !IsLetter(c) && !IsDigit(c)
    ensures var s := SkipWs(input, p); var r := Lex(input, p);
      r.token.tokenType == Illegal ==> r == Scan(Token(Illegal, [input[s]]), s + 1)
  {
  }

  /** Every non-EOF literal is the input slice from the first non-whitespace byte on, and the
      cursor moves by exactly its length. */
  lemma LexLiteralMatchesInput(input: seq<byte>, p: nat)
    ensures var s := SkipWs(input, p); var r := Lex(input, p);
      r.token.tokenType != Eof ==>
        && s + |r.token.literal| == r.next <= |input|
        && r.token.literal == input[s..r.next]
  {
    var s := SkipWs(input, p);
    var c := ByteAt(input, s);
    if IsLetter(c) {
      LexIdentifier(input, p);
    } else if IsDigit(c) {
      LexInteger(input, p);
    } else if (c == '=' || c == '!') && ByteAt(input, s + 1) == '=' {
      LexTwoByteOperators(input, p);
      assert input[s..s + 2] == [input[s], input[s + 1]];
    } else if IsSymbol(c) {
      LexSingleByteSymbol(input, p);
      assert input[s..s + 1] == [input[s]];
    } else {
      LexIllegal(input, p);
      LexEof(input, p);
      assert c != '\0' ==> input[s..s + 1] == [input[s]];
    }
  }

  /** Whitespace and NUL never appear in a literal. */
  lemma LexLiteralIsVisible(input: seq<byte>, p: nat)
    ensures var lit := Lex(input, p).token.literal;
      forall i :: 0 <= i < |lit| ==> !IsWhitespace(lit[i]) && lit[i] != '\0'
  {
    var c := ByteAt(input, SkipWs(input, p));
    if IsLetter(c) {
      LexIdentifier(input, p);
    } else if IsDigit(c) {
      LexInteger(input, p);
    }
  }

  /** Operators and delimiters are named by their own spelling, so for every such token the
      scanner produces the type name equals the literal. */
  lemma OperatorTypeIsLiteral(input: seq<byte>, p: nat)
    ensures var tok := Lex(input, p).token;
      IsOperatorOrDelimiter(tok.tokenType) ==> Name(tok.tokenType) == tok.literal
  {
    var s := SkipWs(input, p);
    var c := ByteAt(input, s);
    if IsLetter(c) {
      LexIdentifier(input, p);
    } else if IsDigit(c) {
      LexInteger(input, p);
    } else if c == '=' || c == '!' {
      LexTwoByteOperators(input, p);
    } else if IsSymbol(c) {
      LexSingleByteSymbol(input, p);
    } else {
      LexIllegal(input, p);
      LexEof(input, p);
    }
  }

  /** A symbol byte other than a `=` or `!` that starts `==` or `!=` is a token of its own,
      an operator or delimiter named by that byte. */
  lemma LexSingleByteSymbol(input: seq<byte>, p: nat)
    requires var s := SkipWs(input, p); var c := ByteAt(input, s);
      IsSymbol(c) && !((c == '=' || c == '!') && ByteAt(input, s + 1) == '=')
    ensures var s := SkipWs(input, p); var r := Lex(input, p);
      && r.next == s + 1 && r.token.literal == [ByteAt(input, s)]
      && IsOperatorOrDelimiter(r.token.tokenType) && Name(r.token.tokenType) == r.token.literal
  {
  }

  /** The stream ends with the EOF at the end of the input; no earlier scan leaves the input. */
  lemma {:induction false} ToksEndWithEof(input: seq<byte>, p: nat)
    decreases |input| + 1 - p
    ensures var ts := Toks(input, p); |ts| >= 1 && ts[|ts| - 1] == Token(Eof, [])
  {
    var r := Lex(input, p);
    if r.next > |input| {
      LexLiteralMatchesInput(input, p);
      LexEof(input, p);
    } else {
      ToksEndWithEof(input, r.next);
    }
  }

  /** The stream from p is the token scanned at p, followed by the stream from where that
      scan leaves the cursor unless it has passed the end of the input. */
  lemma ToksStep(input: seq<byte>, p: nat)
    ensures var r := Lex(input, p); var ts := Toks(input, p);
      && |ts| >= 1 && ts[0] == r.token
      && (r.next > |input| ==> |ts| == 1)
      && (r.next <= |input| ==> ts[1..] == Toks(input, r.next))
  {
  }

  /** Every scan consumes at least one byte, so the stream holds at most one token per
      remaining byte, plus the EOF. */
  lemma {:induction false} ToksLength(input: seq<byte>, p: nat)
    requires p <= |input|
    ensures |Toks(input, p)| <= |input| - p + 1
    decreases |input| - p
  {
    var r := Lex(input, p);
    ToksStep(input, p);
    if r.next <= |input| {
      ToksLength(input, r.next);
    }
  }

  /** Past the end of the input the stream is a single EOF. */
  lemma ToksPastEnd(input: seq<byte>, p: nat)
    requires p >= |input|
    ensures Toks(input, p) == [Token(Eof, [])]
  {
    LexPastEnd(input, p);
  }

  /** Input that is blank from p on yields the single EOF. */
  lemma ToksOfBlankInput(input: seq<byte>, p: nat)
    requires forall i :: p <= i < |input| ==> IsWhitespace(input[i])
    ensures Toks(input, p) == [Token(Eof, [])]
  {
    LexPastEnd(input, SkipWs(input, p));
  }

  /** Every INT token of the stream carries a nonempty run of digits. */
  lemma {:induction false} ToksNumerals(input: seq<byte>, p: nat)
    decreases |input| + 1 - p
    ensures forall i :: 0 <= i < |Toks(input, p)| && Toks(input, p)[i].tokenType == Int ==>
      IsNumeral(Toks(input, p)[i].literal)
  {
    var r := Lex(input, p);
    if IsDigit(ByteAt(input, SkipWs(input, p))) {
      LexInteger(input, p);
    }
    if r.next <= |input| {
      ToksNumerals(input, r.next);
      var ts := Toks(input, p);
      forall i | 0 <= i < |ts| && ts[i].tokenType == Int ensures IsNumeral(ts[i].literal) {
        if i > 0 {
          assert ts[i] == Toks(input, r.next)[i - 1];
        }
      }
    }
  }

  /** Every keyword token of the stream is spelled as that keyword in the keyword table. */
  ghost predicate KeywordsSpelled(ts: seq<Token>) {
    forall i :: 0 <= i < |ts| && IsKeyword(ts[i].tokenType) ==>
      ts[i].literal in Keywords && Keywords[ts[i].literal] == ts[i].tokenType
  }

  /** A keyword token read by `Lex` is spelled as that keyword. */
  lemma LexKeywordSpelled(input: seq<byte>, p: nat)
    ensures var t := Lex(input, p).token;
      IsKeyword(t.tokenType) ==> t.literal in Keywords && Keywords[t.literal] == t.tokenType
  {
    var c := ByteAt(input, SkipWs(input, p));
    if IsLetter(c) {
      LexIdentifier(input, p);
    } else if IsDigit(c) {
      LexInteger(input, p);
    }
  }

  /** The keyword table is the only way a keyword type enters the stream. */
  lemma {:induction false} ToksKeywordsSpelled(input: seq<byte>, p: nat)
    decreases |input| + 1 - p
    ensures KeywordsSpelled(Toks(input, p))
  {
    var r := Lex(input, p);
    var ts := Toks(input, p);
    LexKeywordSpelled(input, p);
    ToksStep(input, p);
    if r.next <= |input| {
      ToksKeywordsSpelled(input, r.next);
      forall i | 0 <= i < |ts| && IsKeyword(ts[i].tokenType)
        ensures ts[i].literal in Keywords && Keywords[ts[i].literal] == ts[i].tokenType
      {
        if i > 0 {
          assert ts[i] == ts[1..][i - 1];
        }
      }
    }
  }

  lemma {:induction false} VisibleAppend(a: seq<byte>, b: seq<byte>)
    ensures Visible(a + b) == Visible(a) + Visible(b)
  {
    if a == [] {
      assert a + b == b;
    } else {
      assert (a + b)[0] == a[0] && (a + b)[1..] == a[1..] + b;
      VisibleAppend(a[1..], b);
    }
  }

  lemma {:induction false} VisibleOfBlank(s: seq<byte>)
    requires forall i :: 0 <= i < |s| ==> IsWhitespace(s[i])
    ensures Visible(s) == []
  {
    if s != [] {
      VisibleOfBlank(s[1..]);
    }
  }

  lemma {:induction false} VisibleOfLiteral(s: seq<byte>)
    requires forall i :: 0 <= i < |s| ==> !IsWhitespace(s[i]) && s[i] != '\0'
    ensures Visible(s) == s
  {
    if s != [] {
      VisibleOfLiteral(s[1..]);
    }
  }

  /** One scan: the bytes it passes over, whitespace and NUL removed, are its literal. */
  lemma ScanCoversSlice(input: seq<byte>, p: nat)
    requires Lex(input, p).next <= |input|
    ensures p <= Lex(input, p).next
    ensures Visible(input[p..Lex(input, p).next]) == Lex(input, p).token.literal
  {
    var s := SkipWs(input, p);
    var r := Lex(input, p);
    LexEof(input, p);
    LexLiteralMatchesInput(input, p);
    LexLiteralIsVisible(input, p);
    assert input[p..r.next] == input[p..s] + input[s..r.next];
    VisibleAppend(input[p..s], input[s..r.next]);
    VisibleOfBlank(input[p..s]);
    if r.token.tokenType == Eof {
      assert input[s..r.next] == ['\0'];
    } else {
      VisibleOfLiteral(input[s..r.next]);
    }
  }

  /** Tokenising loses and duplicates nothing: the literals of the stream, concatenated, are
      the input with its whitespace and NUL bytes removed. */
  lemma {:induction false} ToksCoverInput(input: seq<byte>, p: nat)
    requires p <= |input|
    decreases |input| + 1 - p
    ensures Literals(Toks(input, p)) == Visible(input[p..])
  {
    var r := Lex(input, p);
    var ts := Toks(input, p);
    if r.next > |input| {
      var s := SkipWs(input, p);
      LexEof(input, p);
      LexLiteralMatchesInput(input, p);
      assert s == |input| && ts == [Token(Eof, [])];
      VisibleOfBlank(input[p..]);
    } else {
      ScanCoversSlice(input, p);
      assert input[p..] == input[p..r.next] + input[r.next..];
      VisibleAppend(input[p..r.next], input[r.next..]);
      ToksCoverInput(input, r.next);
      assert ts[1..] == Toks(input, r.next);
    }
  }

  /** As written, `newToken` builds the literal with Go's `string(ch)`, which for a byte of
      0x80 or more is the two-byte UTF-8 encoding of that code point, not the byte itself:
      for the one-byte input 0xE9 the ILLEGAL literal would be 0xC3 0xA9. The corrected
      `NewToken` used by `Lex` gives the input byte. */
  lemma IllegalLiteralAsWritten()
    ensures var input: seq<byte> := ['\U{E9}'];
      && NewTokenAsWritten(Illegal, input[0]).literal == ['\U{C3}', '\U{A9}']
      && NewTokenAsWritten(Illegal, input[0]).literal != input[0..1]
      && LexAsWritten(input, 0) == Scan(Token(Illegal, ['\U{C3}', '\U{A9}']), 1)
      && Lex(input, 0) == Scan(Token(Illegal, input[0..1]), 1)
  {
  }

  /** `NextToken` as the Go code writes it: every one-byte token is built by `newToken`, and
      `==` and `!=` by `string(ch) + string(l.ch)`. */
  function LexAsWritten(input: seq<byte>, p: nat): (r: Scan)
    ensures r.next > p
  {
    var s := SkipWs(input, p);
    var c := ByteAt(input, s);
    match c
    case '=' =>
      if ByteAt(input, s + 1) == '=' then Scan(Token(Eq, GoByteString(c) + GoByteString(ByteAt(input, s + 1))), s + 2)
      else Scan(NewTokenAsWritten(Assign, c), s + 1)
    case '+' => Scan(NewTokenAsWritten(Plus, c), s + 1)
    case '-' => Scan(NewTokenAsWritten(Minus, c), s + 1)
    case '/' => Scan(NewTokenAsWritten(Slash, c), s + 1)
    case '*' => Scan(NewTokenAsWritten(Asterisk, c), s + 1)
    case '<' => Scan(NewTokenAsWritten(Lt, c), s + 1)
    case '>' => Scan(NewTokenAsWritten(Gt, c), s + 1)
    case '!' =>
      if ByteAt(input, s + 1) == '=' then Scan(Token(NotEq, GoByteString(c) + GoByteString(ByteAt(input, s + 1))), s + 2)
      else Scan(NewTokenAsWritten(Bang, c), s + 1)
    case ';' => Scan(NewTokenAsWritten(Semicolon, c), s + 1)
    case '(' => Scan(NewTokenAsWritten(LParen, c), s + 1)
    case ')' => Scan(NewTokenAsWritten(RParen, c), s + 1)
    case ',' => Scan(NewTokenAsWritten(Comma, c), s + 1)
    case '{' => Scan(NewTokenAsWritten(LBrace, c), s + 1)
    case '}' => Scan(NewTokenAsWritten(RBrace, c), s + 1)
    case '\0' => Scan(Token(Eof, []), s + 1)
    case _ =>
      if IsLetter(c) then
        var e := LetterRunEnd(input, s);
        Scan(Token(LookupIdent(input[s..e]), input[s..e]), e)
      else if IsDigit(c) then
        var e := DigitRunEnd(input, s);
        Scan(Token(Int, input[s..e]), e)
      else
        Scan(NewTokenAsWritten(Illegal, c), s + 1)
  }

  /** The token stream of the Go code as written. */
  function ToksAsWritten(input: seq<byte>, p: nat): seq<Token>
    decreases |input| + 1 - p
  {
    var r := LexAsWritten(input, p);
    if r.next > |input| then [r.token] else [r.token] + ToksAsWritten(input, r.next)
  }

  /** The scanner as written and the corrected one agree exactly when the byte under the
      cursor after whitespace is ASCII. On a byte of 0x80 or more both give ILLEGAL and move
      by one, but the code as written gives the two-byte literal `string(ch)`. */
  lemma LexAsWrittenAgrees(input: seq<byte>, p: nat)
    ensures var c := ByteAt(input, SkipWs(input, p));
      LexAsWritten(input, p) == Lex(input, p) <==> c as int < 0x80
    ensures var c := ByteAt(input, SkipWs(input, p));
      c as int >= 0x80 ==>
        && LexAsWritten(input, p) == Scan(Token(Illegal, GoByteString(c)), Lex(input, p).next)
        && Lex(input, p).token == Token(Illegal, [c])
        && |GoByteString(c)| == 2
  {
  }

  /** A scan that starts on an ASCII byte passes over ASCII bytes only. */
  lemma ScanPassesAscii(input: seq<byte>, p: nat)
    requires ByteAt(input, SkipWs(input, p)) as int < 0x80
    ensures forall m :: p <= m < Lex(input, p).next && m < |input| ==> input[m] as int < 0x80
  {
    var s := SkipWs(input, p);
    var c := ByteAt(input, s);
    if IsLetter(c) {
      LexIdentifier(input, p);
    } else if IsDigit(c) {
      LexInteger(input, p);
    } else {
      LexTwoByteOperators(input, p);
      LexLiteralMatchesInput(input, p);
      LexEof(input, p);
    }
  }

  /** On ASCII input the code as written and the model produce the same stream. */
  lemma {:induction false} ToksAsWrittenOnAscii(input: seq<byte>, p: nat)
    requires forall i :: p <= i < |input| ==> input[i] as int < 0x80
    decreases |input| + 1 - p
    ensures ToksAsWritten(input, p) == Toks(input, p)
  {
    var s := SkipWs(input, p);
    assert ByteAt(input, s) as int < 0x80;
    LexAsWrittenAgrees(input, p);
    var r := Lex(input, p);
    if r.next <= |input| {
      ToksAsWrittenOnAscii(input, r.next);
    }
  }

  /** A byte of 0x80 or more anywhere from p on makes the two streams differ: such a byte
      is never inside a token, so some scan starts on it. */
  lemma {:induction false} ToksAsWrittenDiffer(input: seq<byte>, p: nat, i: nat)
    requires p <= i < |input| && input[i] as int >= 0x80
    decreases |input| + 1 - p
    ensures ToksAsWritten(input, p) != Toks(input, p)
  {
    var s := SkipWs(input, p);
    var c := ByteAt(input, s);
    LexAsWrittenAgrees(input, p);
    if c as int < 0x80 {
      var r := Lex(input, p);
      ScanPassesAscii(input, p);
      assert r.next <= i;
      ToksAsWrittenDiffer(input, r.next, i);
      assert ToksAsWritten(input, p)[1..] == ToksAsWritten(input, r.next);
      assert Toks(input, p)[1..] == Toks(input, r.next);
    } else {
      assert ToksAsWritten(input, p)[0] != Toks(input, p)[0];
    }
  }

  /** The stream of the code as written equals the model's stream exactly when the input
      is ASCII. */
  lemma ToksAsWrittenIffAscii(input: seq<byte>)
    ensures ToksAsWritten(input, 0) == Toks(input, 0) <==>
      forall i :: 0 <= i < |input| ==> input[i] as int < 0x80
  {
    if forall i :: 0 <= i < |input| ==> input[i] as int < 0x80 {
      ToksAsWrittenOnAscii(input, 0);
    } else {
      var i :| 0 <= i < |input| && input[i] as int >= 0x80;
      ToksAsWrittenDiffer(input, 0, i);
    }
  }

  /** `==` and `!=` each scan as one token. */
  lemma EqualityOperatorExamples()
    ensures Toks("==", 0) == [Token(Eq, "=="), Token(Eof, [])]
    ensures Toks("!=", 0) == [Token(NotEq, "!="), Token(Eof, [])]
  {
    assert Lex("==", 0) == Scan(Token(Eq, "=="), 2);
    assert Lex("!=", 0) == Scan(Token(NotEq, "!="), 2);
  }

  /** A digit ends an identifier: `x1` is IDENT `x` then INT `1`. */
  lemma IdentifierDigitExample()
    ensures Toks("x1", 0) == [Token(Ident, "x"), Token(Int, "1"), Token(Eof, [])]
  {
    var input: seq<byte> := "x1";
    assert LetterRunEnd(input, 1) == 1;
    assert LetterRunEnd(input, 0) == 1;
    assert input[0..1] == "x";
    assert Lex(input, 0) == Scan(Token(Ident, "x"), 1);
    assert DigitRunEnd(input, 2) == 2;
    assert DigitRunEnd(input, 1) == 2;
    assert input[1..2] == "1";
    assert Lex(input, 1) == Scan(Token(Int, "1"), 2);
    LexPastEnd(input, 2);
  }

  /** An unknown byte is one ILLEGAL token, followed by EOF. */
  lemma IllegalExample()
    ensures Toks("@", 0) == [Token(Illegal, "@"), Token(Eof, [])]
  {
    assert Lex("@", 0) == Scan(Token(Illegal, "@"), 1);
  }

  class Lexer {
    const input: seq<byte>
    var position: nat      // index of the byte under examination
    var readPosition: nat  // index of the byte after it
    var ch: byte           // the byte under examination, NUL past the end

    ghost predicate Valid()
      reads this
    {
      readPosition == position + 1 && ch == ByteAt(input, position)
    }

    constructor New(input: seq<byte>)
      ensures Valid() && this.input == input && position == 0
    {
      this.input := input;
      position, readPosition, ch := 0, 0, '\0';
      new;
      ReadChar();
    }

    /** Moves the cursor one byte ahead. */
    method ReadChar()
      modifies this
      ensures position == old(readPosition) && readPosition == position + 1
      ensures ch == ByteAt(input, position)
    {
      if readPosition >= |input| {
        ch := '\0';
      } else {
        ch := input[readPosition];
      }
      position := readPosition;
      readPosition := readPosition + 1;
    }

    /** The byte after the one under examination, without moving the cursor. */
    function PeekChar(): (c: byte)
      reads this
      requires Valid()
      ensures c == ByteAt(input, position + 1)
    {
      if readPosition >= |input| then '\0' else input[readPosition]
    }

    method SkipWhitespace()
      requires Valid()
      modifies this
      ensures Valid() && position == SkipWs(input, old(position))
    {
      while IsWhitespace(ch)
        invariant Valid() && old(position) <= position
        invariant SkipWs(input, position) == SkipWs(input, old(position))
        decreases |input| - position
      {
        ReadChar();
      }
    }

    method ReadIdentifier() returns (literal: seq<byte>)
      requires Valid() && position <= |input|
      modifies this
      ensures Valid() && position == LetterRunEnd(input, old(position))
      ensures literal == input[old(position)..position]
    {
      var start := position;
      while IsLetter(ch)
        invariant Valid() && start <= position <= |input|
        invariant LetterRunEnd(input, position) == LetterRunEnd(input, start)
        decreases |input| - position
      {
        ReadChar();
      }
      literal := input[start..position];
    }

    method ReadNumber() returns (literal: seq<byte>)
      requires Valid() && position <= |input|
      modifies this
      ensures Valid() && position == DigitRunEnd(input, old(position))
      ensures literal == input[old(position)..position]
    {
      var start := position;
      while IsDigit(ch)
        invariant Valid() && start <= position <= |input|
        invariant DigitRunEnd(input, position) == DigitRunEnd(input, start)
        decreases |input| - position
      {
        ReadChar();
      }
      literal := input[start..position];
    }

    /** Skips whitespace, then scans one token. */
    method NextToken() returns (tok: Token)
      requires Valid()
      modifies this
      ensures Valid()
      ensures Scan(tok, position) == Lex(input, old(position))
    {
      SkipWhitespace();
      match ch {
        case '=' =>
          if PeekChar() == '=' {
            var first := ch;
            ReadChar();
            tok := Token(Eq, [first] + [ch]);
          } else {
            tok := NewToken(Assign, ch);
          }
        case '+' => tok := NewToken(Plus, ch);
        case '-' => tok := NewToken(Minus, ch);
        case '/' => tok := NewToken(Slash, ch);
        case '*' => tok := NewToken(Asterisk, ch);
        case '<' => tok := NewToken(Lt, ch);
        case '>' => tok := NewToken(Gt, ch);
        case '!' =>
          if PeekChar() == '=' {
            var first := ch;
            ReadChar();
            tok := Token(NotEq, [first] + [ch]);
          } else {
            tok := NewToken(Bang, ch);
          }
        case ';' => tok := NewToken(Semicolon, ch);
        case '(' => tok := NewToken(LParen, ch);
        case ')' => tok := NewToken(RParen, ch);
        case ',' => tok := NewToken(Comma, ch);
        case '{' => tok := NewToken(LBrace, ch);
        case '}' => tok := NewToken(RBrace, ch);
        case '\0' => tok := Token(Eof, []);
        case _ =>
          if IsLetter(ch) {
            var literal := ReadIdentifier();
            tok := Token(LookupIdent(literal), literal);
            return;
          } else if IsDigit(ch) {
            var literal := ReadNumber();
            tok := Token(Int, literal);
            return;
          } else {
            tok := NewToken(Illegal, ch);
          }
      }
      ReadChar();
    }
  }
}
