/** Tokens and token kinds (src/token.rs, and the kinds that src/scanner.rs
    and src/parser.rs refer to; src/token_type.rs is not part of this model). */
module Tokens {
  import RoxTypes

  /** The kinds of token the scanner produces and the parser inspects. */
  datatype TokenType =
    // single-character punctuators
    | LeftParen | RightParen | LeftBrace | RightBrace
    | Comma | Dot | Minus | Plus | Semicolon | Slash | Star
    // one- or two-character operators
    | Bang | BangEqual | Equal | EqualEqual
    | Greater | GreaterEqual | Less | LessEqual
    // literals
    | Identifier | String | Number
    // keywords
    | And | Class | Else | False | For | Fun | If | Nil | Or
    | Print | Return | Super | This | True | Var | While
    // end of input
    | EOF

  /** A token has exactly four fields, in the order the source declares them. */
  datatype Token = Token(tokenType: TokenType, lexeme: string, line: nat, literal: RoxTypes.RoxType)

  /** `Token::new`: note that its argument order (kind, lexeme, literal, line)
      differs from the field order (kind, lexeme, line, literal). */
  function NewToken(tokenType: TokenType, lexeme: string, literal: RoxTypes.RoxType, line: nat): (t: Token)
    ensures t.tokenType == tokenType && t.lexeme == lexeme
    ensures t.literal == literal && t.line == line
  {
    Token(tokenType, lexeme, line, literal)
  }

  /** The `{:?}` rendering of a token kind: the name of its variant. */
  function KindName(k: TokenType): (name: string)
    ensures |name| > 0 && ' ' !in name
  {
    match k
    case LeftParen => "LeftParen"
    case RightParen => "RightParen"
    case LeftBrace => "LeftBrace"
    case RightBrace => "RightBrace"
    case Comma => "Comma"
    case Dot => "Dot"
    case Minus => "Minus"
    case Plus => "Plus"
    case Semicolon => "Semicolon"
    case Slash => "Slash"
    case Star => "Star"
    case Bang => "Bang"
    case BangEqual => "BangEqual"
    case Equal => "Equal"
    case EqualEqual => "EqualEqual"
    case Greater => "Greater"
    case GreaterEqual => "GreaterEqual"
    case Less => "Less"
    case LessEqual => "LessEqual"
    case Identifier => "Identifier"
    case String => "String"
    case Number => "Number"
    case And => "And"
    case Class => "Class"
    case Else => "Else"
    case False => "False"
    case For => "For"
    case Fun => "Fun"
    case If => "If"
    case Nil => "Nil"
    case Or => "Or"
    case Print => "Print"
    case Return => "Return"
    case Super => "Super"
    case This => "This"
    case True => "True"
    case Var => "Var"
    case While => "While"
    case EOF => "EOF"
  }

  /** The `Display` of a token: kind, lexeme and literal separated by single
      spaces. The `{:#?}` rendering of the literal comes from the standard
      library's `Debug` formatting of doubles and strings, which is not part
      of this model, so it is a parameter. */
  function Display(t: Token, showLiteral: RoxTypes.RoxType -> string): (text: string)
    ensures |text| == |KindName(t.tokenType)| + |t.lexeme| + |showLiteral(t.literal)| + 2
    ensures var k := KindName(t.tokenType);
      && text[..|k|] == k
      && text[|k|] == ' '
      && text[|k| + 1..|k| + 1 + |t.lexeme|] == t.lexeme
      && text[|k| + 1 + |t.lexeme|] == ' '
      && text[|k| + 2 + |t.lexeme|..] == showLiteral(t.literal)
  {
    KindName(t.tokenType) + " " + t.lexeme + " " + showLiteral(t.literal)
  }

  /** The line a token was found on is not part of its display. */
  lemma DisplayOmitsLine(t: Token, line: nat, showLiteral: RoxTypes.RoxType -> string)
    ensures Display(t.(line := line), showLiteral) == Display(t, showLiteral)
  {
  }

  /** Since no kind name contains a space, the first space of a display ends
      the kind name: the kind can be read back from the text. */
  lemma DisplayKindIsFirstWord(t: Token, showLiteral: RoxTypes.RoxType -> string, i: nat)
    requires i < |KindName(t.tokenType)|
    ensures Display(t, showLiteral)[i] != ' '
    ensures Display(t, showLiteral)[|KindName(t.tokenType)|] == ' '
  {
    var k := KindName(t.tokenType);
    assert Display(t, showLiteral)[i] == k[i];
  }
}
