// The string-input lexer (src/lexer/lexer.c): a cursor over a NUL-terminated input.

module Lexer {
  import opened Wrappers
  import opened Token
  import Fmt

  /** A C string holds no NUL before its terminator; the model's input is the text before it. */
  predicate CString(input: string)
  {
    forall i | 0 <= i < |input| :: input[i] != '\0'
  }

  /** The character read_char loads at index i: the input's, or NUL once strlen(input) is reached. */
  function CharAt(input: string, i: nat): char
  {
    if i < |input| then input[i] else '\0'
  }

  /** isalpha in the C locale, or '_'. */
  predicate IsLetter(c: char)
  {
    ('a' <= c <= 'z') || ('A' <= c <= 'Z') || c == '_'
  }

  predicate IsWhitespace(c: char)
  {
    c == ' ' || c == '\n' || c == '\t' || c == '\r'
  }

  /** The character classes the read_* loops collect. */
  datatype CharClass =
    | Letters      // read_identifier: is_letter
    | Digits       // read_number: isdigit or '.'
    | Alnum        // read_hex: isalnum
    | StringBody   // read_string: neither '"' nor NUL

  predicate InClass(c: char, cls: CharClass)
  {
    match cls
    case Letters => IsLetter(c)
    case Digits => Fmt.IsDigit(c) || c == '.'
    case Alnum => (IsLetter(c) && c != '_') || Fmt.IsDigit(c)
    case StringBody => c != '"' && c != '\0'
  }

  /** The end of the maximal run of class cls starting at i. */
  function Span(input: string, i: nat, cls: CharClass): (j: nat)
    requires CString(input)
    ensures i <= j && (i <= |input| ==> j <= |input|)
    ensures forall k | i <= k < j :: InClass(CharAt(input, k), cls)
    ensures !InClass(CharAt(input, j), cls)
    decreases |input| - i
  {
    if InClass(CharAt(input, i), cls) then Span(input, i + 1, cls) else i
  }

  /** The first index at or after i whose character is not whitespace. */
  function SkipWs(input: string, i: nat): (j: nat)
    requires CString(input)
    ensures i <= j && (i <= |input| ==> j <= |input|)
    ensures forall k | i <= k < j :: IsWhitespace(CharAt(input, k))
    ensures !IsWhitespace(CharAt(input, j))
    decreases |input| - i
  {
    if IsWhitespace(CharAt(input, i)) then SkipWs(input, i + 1) else i
  }

  /** Characters that always make a one-character token. */
  function SingleKind(c: char): Option<TokenType>
  {
    match c
    case ';' => Some(Semicolon)  case '(' => Some(LParen)    case ')' => Some(RParen)
    case '{' => Some(LBrace)     case '}' => Some(RBrace)    case ',' => Some(Comma)
    case '+' => Some(Plus)       case '[' => Some(LBracket)  case ']' => Some(RBracket)
    case ':' => Some(Colon)      case '-' => Some(Minus)     case '/' => Some(Slash)
    case '*' => Some(Asterisk)   case '^' => Some(BXor)      case '%' => Some(Mod)
    case _ => None
  }

  /** Characters that start a one- or two-character token: (second character, two-character kind, one-character kind). */
  function PairKind(c: char): Option<(char, TokenType, TokenType)>
  {
    match c
    case '=' => Some(('=', Eq, Assign))
    case '!' => Some(('=', NotEq, Bang))
    case '<' => Some(('<', LShift, Lt))
    case '>' => Some(('>', RShift, Gt))
    case '&' => Some(('&', And, BAnd))
    case '|' => Some(('|', Or, BOr))
    case _ => None
  }

  /**
   * next_token once whitespace is skipped: the token at index p and the index of the character
   * after it. None when read_special_number's assert fires ('0' followed by a letter other than x, b).
   */
  function TokenAt(input: string, p: nat): Option<(Token, nat)>
    requires CString(input)
  {
    var c := CharAt(input, p);
    if PairKind(c).Some? then
      var (second, two, one) := PairKind(c).value;
      if CharAt(input, p + 1) == second then Some((Token(two, [c, second]), p + 2))
      else Some((Token(one, [c]), p + 1))
    else if SingleKind(c).Some? then Some((Token(SingleKind(c).value, [c]), p + 1))
    else if c == '"' then
      var j := Span(input, p + 1, StringBody);
      Some((Token(Str, input[p + 1..j]), j + 1))
    else if IsLetter(c) then
      var j := Span(input, p, Letters);
      Some((Token(LookupIdent(input[p..j]), input[p..j]), j))
    else if Fmt.IsDigit(c) then
      if c == '0' && IsLetter(CharAt(input, p + 1)) then
        var peek := CharAt(input, p + 1);
        if peek == 'x' then
          var j := Span(input, p + 2, Alnum);
          Some((Token(Hex, input[p + 2..j]), j))
        else if peek == 'b' then
          var j := Span(input, p + 2, Digits);
          Some((Token(Binary, input[p + 2..j]), j))
        else None
      else
        var j := Span(input, p, Digits);
        Some((Token(Number, input[p..j]), j))
    else Some((Token(EndOfFile, ""), p))
  }

  /** next_token from the lexer whose current character is at index pos. */
  function NextTokenSpec(input: string, pos: nat): Option<(Token, nat)>
    requires CString(input)
  {
    TokenAt(input, SkipWs(input, pos))
  }

  /** Every token but END_OF_FILE consumes input, END_OF_FILE consumes none past the whitespace, and the cursor never passes the NUL by more than one. */
  lemma {:induction false} NextTokenAdvances(input: string, pos: nat)
    requires CString(input) && pos <= |input| + 1
    ensures var r := NextTokenSpec(input, pos);
            r.Some? ==> r.value.1 <= |input| + 1
                        && (r.value.0.kind != EndOfFile <==> r.value.1 > SkipWs(input, pos))
                        && (r.value.0.kind == EndOfFile ==> r.value.1 == SkipWs(input, pos))
                        && r.value.1 >= pos
  {
    var p := SkipWs(input, pos);
    if p <= |input| {
      var c := CharAt(input, p);
      if c == '"' {
        var j := Span(input, p + 1, StringBody);
        assert j <= |input|;
      } else if IsLetter(c) {
        assert Span(input, p, Letters) > p;
      } else if Fmt.IsDigit(c) {
        assert Span(input, p, Digits) > p;
        if c == '0' && IsLetter(CharAt(input, p + 1)) {
          assert p + 1 < |input|;
        }
      } else if PairKind(c).Some? && CharAt(input, p + 1) == PairKind(c).value.0 {
        assert p + 1 < |input|;
      }
    }
  }

  /** The lexer never produces ILLEGAL: every unrecognised character, and the end of input, yields END_OF_FILE. */
  lemma {:induction false} NextTokenNeverIllegal(input: string, pos: nat)
    requires CString(input)
    ensures var r := NextTokenSpec(input, pos); r.Some? ==> r.value.0.kind != Illegal
  {
    var p := SkipWs(input, pos);
    var c := CharAt(input, p);
    if IsLetter(c) {
      var j := Span(input, p, Letters);
      LookupIdentOthers(input[p..j]);
    }
  }

  /** An unrecognised character (or the end of input) yields END_OF_FILE with an empty literal and does not advance. */
  lemma {:induction false} UnrecognisedIsEndOfFile(input: string, pos: nat)
    requires CString(input)
    requires var c := CharAt(input, SkipWs(input, pos));
             PairKind(c).None? && SingleKind(c).None? && c != '"' && !IsLetter(c) && !Fmt.IsDigit(c)
    ensures NextTokenSpec(input, pos) == Some((Token(EndOfFile, ""), SkipWs(input, pos)))
  {
  }

  /** Skipping whitespace is idempotent. */
  lemma {:induction false} SkipWsIdempotent(input: string, i: nat)
    requires CString(input)
    ensures SkipWs(input, SkipWs(input, i)) == SkipWs(input, i)
  {
  }

  /** Whitespace before a token does not change it: next_token skips space, \n, \t and \r first. */
  lemma {:induction false} WhitespaceIsSkipped(input: string, pos: nat)
    requires CString(input) && IsWhitespace(CharAt(input, pos))
    ensures NextTokenSpec(input, pos) == NextTokenSpec(input, pos + 1)
  {
    assert SkipWs(input, pos) == SkipWs(input, pos + 1);
  }

  /** An identifier is a maximal run of letters, classified by lookup_ident; the character after it is not a letter. */
  lemma {:induction false} IdentifierIsMaximal(input: string, pos: nat)
    requires CString(input)
    requires IsLetter(CharAt(input, SkipWs(input, pos)))
    ensures var r := NextTokenSpec(input, pos);
            var p := SkipWs(input, pos);
            r.Some? && r.value.0.kind == LookupIdent(r.value.0.literal)
            && r.value.0.literal == input[p..r.value.1]
            && |r.value.0.literal| > 0
            && (forall k | 0 <= k < |r.value.0.literal| :: IsLetter(r.value.0.literal[k]))
            && !IsLetter(CharAt(input, r.value.1))
  {
    var p := SkipWs(input, pos);
    var j := Span(input, p, Letters);
    assert j <= |input|;
    forall k | 0 <= k < j - p ensures IsLetter(input[p..j][k]) {
      assert InClass(CharAt(input, p + k), Letters);
    }
  }

  /** The token sequence the parser pulls: tokens up to and including the first END_OF_FILE (None when the lexer aborts). */
  function Tokens(input: string, pos: nat): Option<seq<Token>>
    requires CString(input) && pos <= |input| + 1
    decreases |input| + 2 - pos
  {
    NextTokenAdvances(input, pos);
    match NextTokenSpec(input, pos)
    case None => None
    case Some((tok, next)) =>
      if tok.kind == EndOfFile then Some([tok])
      else
        match Tokens(input, next)
        case None => None
        case Some(rest) => Some([tok] + rest)
  }

  /** The token sequence ends in END_OF_FILE, which occurs nowhere else. */
  lemma {:induction false} TokensEndInEof(input: string, pos: nat)
    requires CString(input) && pos <= |input| + 1
    ensures var r := Tokens(input, pos);
            r.Some? ==> |r.value| > 0 && r.value[|r.value| - 1].kind == EndOfFile
                        && forall i | 0 <= i < |r.value| - 1 :: r.value[i].kind != EndOfFile
    decreases |input| + 2 - pos
  {
    NextTokenAdvances(input, pos);
    match NextTokenSpec(input, pos)
    case None =>
    case Some((tok, next)) =>
      if tok.kind != EndOfFile {
        TokensEndInEof(input, next);
      }
  }

  /** A token other than END_OF_FILE is followed by the tokens after it. */
  lemma {:induction false} TokensStep(input: string, pos: nat, tok: Token, next: nat)
    requires CString(input) && pos <= |input| + 1
    requires NextTokenSpec(input, pos) == Some((tok, next)) && tok.kind != EndOfFile
    ensures next <= |input| + 1
    ensures Tokens(input, next).Some? ==> Tokens(input, pos) == Some([tok] + Tokens(input, next).value)
  {
    NextTokenAdvances(input, pos);
  }

  /** An input whose first token runs to its end lexes as that token, then END_OF_FILE. */
  lemma {:induction false} LoneToken(input: string, tok: Token)
    requires CString(input) && NextTokenSpec(input, 0) == Some((tok, |input|)) && tok.kind != EndOfFile
    ensures Tokens(input, 0) == Some([tok, Token(EndOfFile, "")])
  {
    TokensAtEnd(input);
    TokensStep(input, 0, tok, |input|);
    assert [tok] + [Token(EndOfFile, "")] == [tok, Token(EndOfFile, "")];
  }

  /** At the end of the input the only token left is END_OF_FILE. */
  lemma {:induction false} TokensAtEnd(input: string)
    requires CString(input)
    ensures Tokens(input, |input|) == Some([Token(EndOfFile, "")])
  {
    TokenAtEnd(input);
  }

  lemma {:induction false} TokenAtEnd(input: string)
    requires CString(input)
    ensures NextTokenSpec(input, |input|) == Some((Token(EndOfFile, ""), |input|))
  {
    assert CharAt(input, |input|) == '\0';
    assert SkipWs(input, |input|) == |input|;
  }

  lemma {:induction false} BinaryLiteralToken()
    ensures NextTokenSpec("0b1010", 0) == Some((Token(Binary, "1010"), 6))
  {
    var input := "0b1010";
    assert SkipWs(input, 0) == 0;
    assert CharAt(input, 0) == '0' && CharAt(input, 1) == 'b';
    assert Span(input, 5, Digits) == 6;
    assert Span(input, 4, Digits) == 6;
    assert Span(input, 3, Digits) == 6;
    assert Span(input, 2, Digits) == 6;
    assert input[2..6] == "1010";
  }

  /** "0b1010" lexes as one BINARY token with the prefix removed, then END_OF_FILE. */
  lemma {:induction false} BinaryLiteralExample()
    ensures Tokens("0b1010", 0) == Some([Token(Binary, "1010"), Token(EndOfFile, "")])
  {
    BinaryLiteralToken();
    LoneToken("0b1010", Token(Binary, "1010"));
  }

  lemma {:induction false} DecimalNumberToken()
    ensures NextTokenSpec("1.5", 0) == Some((Token(Number, "1.5"), 3))
  {
    var input := "1.5";
    assert SkipWs(input, 0) == 0;
    assert CharAt(input, 0) == '1' && CharAt(input, 1) == '.';
    assert Span(input, 2, Digits) == 3;
    assert Span(input, 1, Digits) == 3;
    assert Span(input, 0, Digits) == 3;
    assert input[0..3] == "1.5";
  }

  /** "1.5" is a single NUMBER token. */
  lemma {:induction false} DecimalNumberExample()
    ensures Tokens("1.5", 0) == Some([Token(Number, "1.5"), Token(EndOfFile, "")])
  {
    DecimalNumberToken();
    LoneToken("1.5", Token(Number, "1.5"));
  }

  /**
   * The lexer object: the input, the index of the current character, the read position one past it,
   * and the current character.
   */
  class Lexer {
    const input: string
    var position: nat
    var readPosition: nat
    var ch: char

    /** In string mode read_position is always position + 1 and ch is the character at position. */
    predicate Valid()
      reads this
    {
      CString(input) && readPosition == position + 1 && ch == CharAt(input, position)
    }

    /** new_lexer: starts at index 0 with the first character loaded. */
    constructor (input: string)
      requires CString(input)
      ensures this.input == input && position == 0 && Valid()
    {
      this.input := input;
      position := 0;
      readPosition := 0;
      ch := '\0';
      new;
      ReadChar();
    }

    /** read_char: loads the character at read_position (NUL past the end) and moves both positions on by one. */
    method ReadChar()
      modifies this
      ensures ch == CharAt(input, old(readPosition))
      ensures position == old(readPosition) && readPosition == old(readPosition) + 1
    {
      if readPosition >= |input| {
        ch := '\0';
      } else {
        ch := input[readPosition];
      }
      position := readPosition;
      readPosition := readPosition + 1;
    }

    /** peek_char: the character after the current one, NUL past the end; it reads but changes nothing. */
    function PeekChar(): (c: char)
      reads this
      requires Valid()
      ensures c == CharAt(input, position + 1)
    {
      if readPosition >= |input| then '\0' else input[readPosition]
    }

    /** skip_whitespace. */
    method SkipWhitespace()
      requires Valid()
      modifies this
      ensures Valid() && position == SkipWs(input, old(position))
    {
      while IsWhitespace(ch)
        invariant Valid() && old(position) <= position <= SkipWs(input, old(position))
        invariant SkipWs(input, position) == SkipWs(input, old(position))
        decreases |input| - position
      {
        ReadChar();
      }
    }

    /** read_identifier, read_number and read_hex: collect the maximal run of one class of characters. */
    method ReadRun(cls: CharClass) returns (literal: string)
      requires Valid() && position <= |input|
      modifies this
      ensures Valid() && position == Span(input, old(position), cls)
      ensures literal == input[old(position)..position]
    {
      literal := [];
      while InClass(ch, cls)
        invariant Valid() && old(position) <= position <= Span(input, old(position), cls)
        invariant Span(input, position, cls) == Span(input, old(position), cls)
        invariant position <= |input| && literal == input[old(position)..position]
        decreases |input| - position
      {
        literal := literal + [ch];
        ReadChar();
      }
    }

    /** read_string: skips the opening quote and collects characters up to '"' or NUL (the closing quote stays current). */
    method ReadString() returns (literal: string)
      requires Valid() && position < |input|
      modifies this
      ensures Valid() && position == Span(input, old(position) + 1, StringBody)
      ensures literal == input[old(position) + 1..position]
    {
      ReadChar();
      literal := ReadRun(StringBody);
    }

    /** read_special_number: skips '0' and the prefix letter, then reads a hex ('x') or binary ('b') literal; any other letter aborts. */
    method ReadSpecialNumber() returns (tok: Option<Token>)
      requires Valid() && position + 1 < |input|
      modifies this
      ensures Valid() && old(position) + 2 <= position <= |input|
      ensures var peek := CharAt(input, old(position) + 1);
              if peek == 'x' then position == Span(input, old(position) + 2, Alnum)
                                  && tok == Some(Token(Hex, input[old(position) + 2..position]))
              else if peek == 'b' then position == Span(input, old(position) + 2, Digits)
                                  && tok == Some(Token(Binary, input[old(position) + 2..position]))
              else tok == None
    {
      var peek := PeekChar();
      ReadChar();
      ReadChar();
      if peek == 'x' {
        var literal := ReadRun(Alnum);
        tok := Some(Token(Hex, literal));
      } else if peek == 'b' {
        var literal := ReadRun(Digits);
        tok := Some(Token(Binary, literal));
      } else {
        tok := None;
      }
    }

    /** next_token: the token at the cursor and the cursor past it; None when the lexer aborts. */
    method NextToken() returns (tok: Option<Token>)
      requires Valid() && position <= |input| + 1
      modifies this
      ensures NextTokenSpec(input, old(position)) == if tok.Some? then Some((tok.value, position)) else None
      ensures Valid() && position <= |input| + 1
    {
      NextTokenAdvances(input, position);
      SkipWhitespace();
      var c := ch;
      if PairKind(c).Some? || SingleKind(c).Some? {
        tok := ReadOperator();
      } else if c == '"' || IsLetter(c) {
        tok := ReadWord();
      } else if Fmt.IsDigit(c) {
        tok := ReadNumber();
      } else {
        tok := Some(Token(EndOfFile, ""));
      }
    }

    /** The branches of next_token for an operator or delimiter: one character, or two when the pair's second follows. */
    method ReadOperator() returns (tok: Option<Token>)
      requires Valid() && (PairKind(ch).Some? || SingleKind(ch).Some?)
      modifies this
      ensures Valid() && TokenAt(input, old(position)) == if tok.Some? then Some((tok.value, position)) else None
    {
      var c := ch;
      if PairKind(c).Some? {
        var (second, two, one) := PairKind(c).value;
        if PeekChar() == second {
          ReadChar();
          ReadChar();
          tok := Some(Token(two, [c, second]));
        } else {
          ReadChar();
          tok := Some(Token(one, [c]));
        }
      } else {
        ReadChar();
        tok := Some(Token(SingleKind(c).value, [c]));
      }
    }

    /** The branches of next_token for a string literal (the closing quote is skipped) and for an identifier or keyword. */
    method ReadWord() returns (tok: Option<Token>)
      requires Valid() && PairKind(ch).None? && SingleKind(ch).None? && (ch == '"' || IsLetter(ch))
      modifies this
      ensures Valid() && TokenAt(input, old(position)) == if tok.Some? then Some((tok.value, position)) else None
    {
      if ch == '"' {
        var literal := ReadString();
        ReadChar();
        tok := Some(Token(Str, literal));
      } else {
        var literal := ReadRun(Letters);
        tok := Some(Token(LookupIdent(literal), literal));
      }
    }

    /** The branch of next_token for a number: decimal digits, or a hex or binary literal after '0'. */
    method ReadNumber() returns (tok: Option<Token>)
      requires Valid() && PairKind(ch).None? && SingleKind(ch).None? && ch != '"' && !IsLetter(ch) && Fmt.IsDigit(ch)
      modifies this
      ensures Valid() && TokenAt(input, old(position)) == if tok.Some? then Some((tok.value, position)) else None
      ensures tok.None? ==> position <= |input|
    {
      if ch == '0' && IsLetter(PeekChar()) {
        tok := ReadSpecialNumber();
      } else {
        var literal := ReadRun(Digits);
        tok := Some(Token(Number, literal));
      }
    }
  }
}
