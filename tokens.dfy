/** Token kinds, tokens and the keyword table of the mana language. */
module Tokens {

  /** A Go string is a sequence of bytes; byte b is represented by the char with code b,
      so that ASCII string literals are byte strings as they stand. */
  type byte = c: char | c as int < 256 witness '\0'

  datatype Option<+T> = None | Some(value: T)

  /** The closed enumeration of token types. */
  datatype TokenType =
    | Illegal | Eof
      // identifiers and literals
    | Ident | Int
      // operators
    | Assign | Plus | Minus | Bang | Asterisk | Slash | Lt | Gt | Eq | NotEq
      // delimiters
    | Comma | Semicolon | LParen | RParen | LBrace | RBrace
      // keywords
    | Function | Let | If | Else | True | False | Return

  /** The string value of each token type constant. Operators and delimiters are
      spelled as their source text. */
  function Name(t: TokenType): seq<byte> {
    match t
    case Illegal => "ILLEGAL"
    case Eof => "EOF"
    case Ident => "IDENT"
    case Int => "INT"
    case Assign => "="
    case Plus => "+"
    case Minus => "-"
    case Bang => "!"
    case Asterisk => "*"
    case Slash => "/"
    case Lt => "<"
    case Gt => ">"
    case Eq => "=="
    case NotEq => "!="
    case Comma => ","
    case Semicolon => ";"
    case LParen => "("
    case RParen => ")"
    case LBrace => "{"
    case RBrace => "}"
    case Function => "FUNCTION"
    case Let => "LET"
    case If => "IF"
    case Else => "ELSE"
    case True => "TRUE"
    case False => "FALSE"
    case Return => "RETURN"
  }

  predicate IsOperatorOrDelimiter(t: TokenType) {
    t in {Assign, Plus, Minus, Bang, Asterisk, Slash, Lt, Gt, Eq, NotEq,
          Comma, Semicolon, LParen, RParen, LBrace, RBrace}
  }

  predicate IsKeyword(t: TokenType) {
    t in {Function, Let, If, Else, True, False, Return}
  }

  datatype Token = Token(tokenType: TokenType, literal: seq<byte>)

  /** The keyword table. */
  const Keywords: map<seq<byte>, TokenType> :=
    map["fn" := Function, "let" := Let, "if" := If, "else" := Else,
        "true" := True, "false" := False, "return" := Return]

  /** Keyword type for a keyword spelling, IDENT for everything else. */
  function LookupIdent(ident: seq<byte>): (t: TokenType)
    ensures t == Ident || IsKeyword(t)
    ensures t != Ident <==> ident in Keywords
  {
    if ident in Keywords then Keywords[ident] else Ident
  }

  /** Exactly the seven spellings map to the seven keyword types. */
  lemma LookupIdentKeywords(ident: seq<byte>)
    ensures LookupIdent(ident) == Function <==> ident == "fn"
    ensures LookupIdent(ident) == Let <==> ident == "let"
    ensures LookupIdent(ident) == If <==> ident == "if"
    ensures LookupIdent(ident) == Else <==> ident == "else"
    ensures LookupIdent(ident) == True <==> ident == "true"
    ensures LookupIdent(ident) == False <==> ident == "false"
    ensures LookupIdent(ident) == Return <==> ident == "return"
  {
  }

  /** Case variants are not keywords. */
  lemma LookupIdentCaseSensitive()
    ensures LookupIdent("Let") == Ident && LookupIdent("LET") == Ident
    ensures LookupIdent("Fn") == Ident && LookupIdent("RETURN") == Ident
  {
  }

  /** The keyword table is injective and never yields IDENT. */
  lemma KeywordsDistinct()
    ensures forall a, b :: a in Keywords && b in Keywords && a != b ==> Keywords[a] != Keywords[b]
    ensures Ident !in Keywords.Values
    ensures forall t :: IsKeyword(t) <==> t in Keywords.Values
  {
    forall t | IsKeyword(t) ensures t in Keywords.Values {
      var spelling :=
        if t == Function then "fn"
        else if t == Let then "let"
        else if t == If then "if"
        else if t == Else then "else"
        else if t == True then "true"
        else if t == False then "false"
        else "return";
      assert Keywords[spelling] == t;
    }
  }

  /** Distinct token types have distinct names (the Go constants are distinct strings). */
  lemma NamesDistinct(t: TokenType, u: TokenType)
    requires t != u
    ensures Name(t) != Name(u)
  {
  }
}
