// Tokens of the Monkey language and the keyword table (src/token/token.c).

module Token {

  /** The token kinds the lexer and the parser use (lexer.c is ahead of token.h, which lists only a subset). */
  datatype TokenType =
    | Illegal | EndOfFile | Ident | Number | Hex | Binary | Str
    | Assign | Plus | Minus | Bang | Asterisk | Slash | Mod
    | Lt | Gt | Eq | NotEq | LShift | RShift | And | Or | BAnd | BOr | BXor
    | Comma | Semicolon | Colon | LParen | RParen | LBrace | RBrace | LBracket | RBracket
    | Function | Let | True | False | If | Else | Return | While | Continue | Break | For

  /** A token: its kind and its literal text. */
  datatype Token = Token(kind: TokenType, literal: string)

  /** TOKEN_STRING: the enum constant's own name, used in parser error messages. */
  function TypeName(t: TokenType): string
  {
    match t
    case Illegal => "ILLEGAL"       case EndOfFile => "END_OF_FILE" case Ident => "IDENT"
    case Number => "NUMBER"         case Hex => "HEX"               case Binary => "BINARY"
    case Str => "STRING"            case Assign => "ASSIGN"         case Plus => "PLUS"
    case Minus => "MINUS"           case Bang => "BANG"             case Asterisk => "ASTERISK"
    case Slash => "SLASH"           case Mod => "MOD"               case Lt => "LT"
    case Gt => "GT"                 case Eq => "EQ"                 case NotEq => "NOT_EQ"
    case LShift => "LSHIFT"         case RShift => "RSHIFT"         case And => "AND"
    case Or => "OR"                 case BAnd => "BAND"             case BOr => "BOR"
    case BXor => "BXOR"             case Comma => "COMMA"           case Semicolon => "SEMICOLON"
    case Colon => "COLON"           case LParen => "LPAREN"         case RParen => "RPAREN"
    case LBrace => "LBRACE"         case RBrace => "RBRACE"         case LBracket => "LBRACKET"
    case RBracket => "RBRACKET"     case Function => "FUNCTION"     case Let => "LET"
    case True => "TRUE"             case False => "FALSE"           case If => "IF"
    case Else => "ELSE"             case Return => "RETURN"         case While => "WHILE"
    case Continue => "CONTINUE"     case Break => "BREAK"           case For => "FOR"
  }

  /** The keywords, as an independent table of (spelling, kind) pairs. */
  const Keywords: seq<(string, TokenType)> :=
    [("fn", Function), ("let", Let), ("true", True), ("false", False), ("if", If), ("else", Else),
     ("return", Return), ("while", While), ("continue", Continue), ("break", Break), ("for", For)]

  predicate IsKeyword(s: string)
  {
    exists k | k in Keywords :: k.0 == s
  }

  /** lookup_ident: a chain of exact, case-sensitive comparisons; "false" is tested twice, the second test never fires. */
  function LookupIdent(ident: string): TokenType
  {
    if ident == "fn" then Function
    else if ident == "let" then Let
    else if ident == "true" then True
    else if ident == "false" then False
    else if ident == "false" then False
    else if ident == "if" then If
    else if ident == "else" then Else
    else if ident == "return" then Return
    else if ident == "while" then While
    else if ident == "continue" then Continue
    else if ident == "break" then Break
    else if ident == "for" then For
    else Ident
  }

  /** Every keyword of the table maps to its own kind. */
  lemma {:induction false} LookupIdentKeyword(i: nat)
    requires i < |Keywords|
    ensures LookupIdent(Keywords[i].0) == Keywords[i].1
  {
    if i == 0 { assert LookupIdent("fn") == Function; }
    else if i == 1 { assert LookupIdent("let") == Let; }
    else if i == 2 { assert LookupIdent("true") == True; }
    else if i == 3 { assert LookupIdent("false") == False; }
    else if i == 4 { assert LookupIdent("if") == If; }
    else if i == 5 { assert LookupIdent("else") == Else; }
    else if i == 6 { assert LookupIdent("return") == Return; }
    else if i == 7 { assert LookupIdent("while") == While; }
    else if i == 8 { assert LookupIdent("continue") == Continue; }
    else if i == 9 { assert LookupIdent("break") == Break; }
    else { assert LookupIdent("for") == For; }
  }

  /** Every string that is not a keyword maps to IDENT, and no keyword does. */
  lemma {:induction false} LookupIdentOthers(ident: string)
    ensures LookupIdent(ident) == Ident <==> !IsKeyword(ident)
  {
    if IsKeyword(ident) {
      var k :| k in Keywords && k.0 == ident;
      var i :| 0 <= i < |Keywords| && Keywords[i] == k;
      LookupIdentKeyword(i);
    }
  }

  /** Matching is case-sensitive: a keyword spelled with a capital letter is an ordinary identifier. */
  lemma {:induction false} LookupIdentCaseSensitive()
    ensures LookupIdent("Fn") == Ident && LookupIdent("LET") == Ident
  {
    assert "Fn"[0] == 'F';
    assert "LET"[0] == 'L';
  }
}
