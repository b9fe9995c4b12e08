// The Pratt parser (src/parser/parser.c, src/parser/parser.h).
//
// The parser pulls tokens from the lexer on demand; the lexer is deterministic and parse_program
// asks for every token up to END_OF_FILE, so the model reads them from the sequence
// Lexer.Tokens(input) instead.  The recursive-descent functions thread the parser's mutable state
// (current position, error list and the static INSIDE_LOOP flag) through a PState value; the
// top-level loop, parser_next_token and expect_peek are methods of the Parser class below.

module Parser {
  import opened Wrappers
  import opened Token
  import opened Ast
  import Fmt
  import CInt
  import Lexer
  import Seqs

  // ---------------------------------------------------------------- precedences

  /** OperatorPrecedenceOrder (parser.h): `_` is 0, LOWEST 1, ..., REASSIGN 15. */
  const Lowest: nat := 1
  const PrecOr: nat := 2
  const PrecAnd: nat := 3
  const Equals: nat := 4
  const BitOr: nat := 5
  const BitXor: nat := 6
  const BitAnd: nat := 7
  const LessGreater: nat := 8
  const BitShift: nat := 9
  const Sum: nat := 10
  const Product: nat := 11
  const PrefixPrec: nat := 12
  const CallPrec: nat := 13
  const IndexPrec: nat := 14
  const ReassignPrec: nat := 15

  /** build_precedence_table over a table first filled with LOWEST. */
  function Precedence(t: TokenType): nat
  {
    match t
    case Eq => Equals         case NotEq => Equals
    case Lt => LessGreater    case Gt => LessGreater
    case Plus => Sum          case Minus => Sum
    case Slash => Product     case Asterisk => Product    case Mod => Product
    case LParen => CallPrec   case LBracket => IndexPrec  case Assign => ReassignPrec
    case BAnd => BitAnd       case BOr => BitOr           case BXor => BitXor
    case LShift => BitShift   case RShift => BitShift
    case And => PrecAnd       case Or => PrecOr
    case _ => Lowest
  }

  /** Tokens with a registered prefix parse function. */
  predicate HasPrefix(t: TokenType)
  {
    t in {Ident, Number, Bang, Minus, True, False, LParen, If, Function, Str, LBracket, LBrace,
          While, For, Binary, Hex}
  }

  /** Tokens with a registered infix parse function. */
  predicate HasInfix(t: TokenType)
  {
    t in {Plus, Minus, Slash, Asterisk, Eq, NotEq, Lt, Gt, LShift, RShift, Mod, BOr, BAnd, BXor,
          And, Or, LParen, LBracket, Assign}
  }

  /** A token binds tighter than LOWEST exactly when it has an infix parse function. */
  lemma {:induction false} PrecedenceMatchesInfix(t: TokenType)
    ensures Precedence(t) > Lowest <==> HasInfix(t)
    ensures Lowest <= Precedence(t) <= ReassignPrec
  {
  }

  // ---------------------------------------------------------------- literal values

  /** The value of one hex digit, 0 for any other character (htoi adds nothing for it). */
  function HexDigit(c: char): nat
  {
    if '0' <= c <= '9' then c as nat - '0' as nat
    else if 'a' <= c <= 'f' then c as nat - 'a' as nat + 10
    else if 'A' <= c <= 'F' then c as nat - 'A' as nat + 10
    else 0
  }

  /** The base-16 value of the digits of t, most significant first. */
  function HexValue(t: string): nat
  {
    if |t| == 0 then 0 else HexValue(t[..|t| - 1]) * 16 + HexDigit(t[|t| - 1])
  }

  /** Where htoi starts: after an optional 0x or 0X prefix. */
  function HexStart(s: string): nat
    ensures HexStart(s) <= |s|
  {
    if |s| >= 2 && s[0] == '0' && (s[1] == 'X' || s[1] == 'x') then 2 else 0
  }

  /** htoi on a C string without NUL: res = res * 16 + digit, left to right. */
  method Htoi(s: string) returns (res: int)
    ensures res == HexValue(s[HexStart(s)..])
  {
    var i := 0;
    if |s| >= 2 && s[0] == '0' && (s[1] == 'X' || s[1] == 'x') {
      i := 2;
    }
    res := 0;
    while i < |s|
      invariant HexStart(s) <= i <= |s|
      invariant res == HexValue(s[HexStart(s)..i])
    {
      res := res * 16;
      if '0' <= s[i] <= '9' {
        res := res + (s[i] as int - '0' as int);
      } else if 'a' <= s[i] <= 'f' {
        res := res + (s[i] as int - 'a' as int + 10);
      } else if 'A' <= s[i] <= 'F' {
        res := res + (s[i] as int - 'A' as int + 10);
      }
      assert s[HexStart(s)..i + 1][..i - HexStart(s)] == s[HexStart(s)..i];
      i := i + 1;
    }
    assert i == |s|;
    assert s[HexStart(s)..i] == s[HexStart(s)..];
  }

  function Bit(c: char): nat
  {
    if c == '1' then 1 else 0
  }

  /** The sum of 2^k over the positions holding '1', k counted from the right (0 for the last). */
  function BinaryValue(t: string): nat
  {
    if |t| == 0 then 0 else Bit(t[0]) * CInt.Pow2(|t| - 1) + BinaryValue(t[1..])
  }

  /** Reading from the right: the last digit has weight 1 and the rest is worth twice as much. */
  lemma {:induction false} BinaryValueFromRight(t: string)
    requires |t| > 0
    ensures BinaryValue(t) == 2 * BinaryValue(t[..|t| - 1]) + Bit(t[|t| - 1])
  {
    if |t| > 1 {
      BinaryValueFromRight(t[1..]);
      assert t[1..][..|t| - 2] == t[..|t| - 1][1..];
    }
  }

  /** parse_binary_literal's loop: from the right, adding cur_val * (1 << multiplier++). */
  method BinaryLiteralValue(t: string) returns (result: int)
    ensures result == BinaryValue(t)
  {
    result := 0;
    var multiplier := 0;
    var i := |t| - 1;
    while i >= 0
      invariant -1 <= i < |t| && multiplier == |t| - 1 - i
      invariant result == BinaryValue(t[i + 1..])
    {
      var curVal := if t[i] == '1' then 1 else 0;
      result := result + curVal * CInt.Pow2(multiplier);
      multiplier := multiplier + 1;
      assert t[i..][1..] == t[i + 1..];
      i := i - 1;
    }
    assert t[0..] == t;
  }

  /** The binary test: "1010" is 10. */
  lemma {:induction false} BinaryLiteralExample()
    ensures BinaryValue("1010") == 10
  {
    assert BinaryValue("0") == 0;
    assert BinaryValue("10") == 2;
    assert BinaryValue("010") == 2;
  }

  /** The value of the decimal digit run d. */
  function DigitsValue(d: string): nat
  {
    if |d| == 0 then 0 else DigitsValue(d[..|d| - 1]) * 10 + (if Fmt.IsDigit(d[|d| - 1]) then Fmt.DigitValue(d[|d| - 1]) else 0)
  }

  function Pow10(n: nat): nat
    ensures Pow10(n) > 0
  {
    if n == 0 then 1 else 10 * Pow10(n - 1)
  }

  /** The length of the leading run of decimal digits. */
  function DigitRun(s: string): (n: nat)
    ensures n <= |s|
    ensures forall i | 0 <= i < n :: Fmt.IsDigit(s[i])
    ensures n < |s| ==> !Fmt.IsDigit(s[n])
  {
    if |s| > 0 && Fmt.IsDigit(s[0]) then 1 + DigitRun(s[1..]) else 0
  }

  /** strtof on a NUMBER literal (digits and dots): the longest prefix digits ['.' digits], exactly. */
  function DecimalValue(lit: string): real
  {
    var n := DigitRun(lit);
    var whole := DigitsValue(lit[..n]) as real;
    if n < |lit| && lit[n] == '.' then
      var rest := lit[n + 1..];
      var k := DigitRun(rest);
      whole + (DigitsValue(rest[..k]) as real) / (Pow10(k) as real)
    else whole
  }

  // ---------------------------------------------------------------- parser state

  /** The lexer's tokens up to and including the first END_OF_FILE, the only one. */
  predicate WellFormedTokens(toks: seq<Token>)
  {
    |toks| > 0 && toks[|toks| - 1].kind == EndOfFile
    && forall i | 0 <= i < |toks| - 1 :: toks[i].kind != EndOfFile
  }

  /** The parser's state: the token stream, the position of cur_token, the errors, the static INSIDE_LOOP, and whether an assert has aborted the program. */
  datatype PState = PState(toks: seq<Token>, pos: nat, errors: seq<string>, insideLoop: bool, crashed: bool)

  predicate Wf(s: PState)
  {
    WellFormedTokens(s.toks) && s.pos < |s.toks|
  }

  function Cur(s: PState): Token
    requires Wf(s)
  {
    s.toks[s.pos]
  }

  /** peek_token: the token after cur_token; past the end the lexer keeps returning END_OF_FILE. */
  function Peek(s: PState): Token
    requires Wf(s)
  {
    if s.pos + 1 < |s.toks| then s.toks[s.pos + 1] else s.toks[s.pos]
  }

  /** parser_next_token: cur_token := peek_token; peek_token := the next token. */
  function Advance(s: PState): (r: PState)
    requires Wf(s)
    ensures Wf(r) && r.toks == s.toks && r.errors == s.errors && r.insideLoop == s.insideLoop
    ensures r.crashed == s.crashed
    ensures Cur(r) == Peek(s)
    ensures Cur(s).kind != EndOfFile ==> r.pos == s.pos + 1
    ensures Cur(s).kind == EndOfFile ==> r == s
  {
    if s.pos + 1 < |s.toks| then s.(pos := s.pos + 1) else s
  }

  /** r is a later state over the same tokens: errors are only appended, an abort is final, and INSIDE_LOOP, once set, stays set. */
  predicate Later(s: PState, r: PState)
  {
    Wf(r) && r.toks == s.toks && s.pos <= r.pos && s.errors <= r.errors
    && (s.crashed ==> r.crashed) && (s.insideLoop ==> r.insideLoop)
  }

  function AddError(s: PState, msg: string): (r: PState)
    ensures r == s.(errors := s.errors + [msg])
  {
    s.(errors := s.errors + [msg])
  }

  /** peek_error's message. */
  function PeekErrorMessage(expected: TokenType, got: TokenType): string
  {
    "Expected next token to be " + TypeName(expected) + ", got " + TypeName(got) + ".\n"
  }

  /** expect_peek: advance iff the peek token has kind t; otherwise record exactly one error and keep both tokens. */
  function Expected(s: PState, t: TokenType): (r: (bool, PState))
    requires Wf(s)
    ensures r.0 <==> Peek(s).kind == t
    ensures r.0 ==> r.1 == Advance(s)
    ensures !r.0 ==> r.1 == AddError(s, PeekErrorMessage(t, Peek(s).kind))
  {
    if Peek(s).kind == t then (true, Advance(s))
    else (false, AddError(s, PeekErrorMessage(t, Peek(s).kind)))
  }

  /** Skip one optional semicolon after a statement. */
  function SkipSemicolon(s: PState): (r: PState)
    requires Wf(s)
    ensures Later(s, r) && r.errors == s.errors && r.insideLoop == s.insideLoop && r.crashed == s.crashed
  {
    if Peek(s).kind == Semicolon then Advance(s) else s
  }

  /** The loop condition of parse_expression no longer holds: nothing after the expression binds tighter than prec. */
  predicate Settled(s: PState, prec: nat)
    requires Wf(s)
  {
    Peek(s).kind == Semicolon || Precedence(Peek(s).kind) <= prec || !HasInfix(Peek(s).kind)
  }

  datatype EResult = EResult(e: Expr, s: PState)
  datatype SResult = SResult(st: Option<Stmt>, s: PState)
  datatype BResult = BResult(stmts: seq<Stmt>, s: PState)
  datatype LResult = LResult(list: seq<Expr>, s: PState)
  datatype HResult = HResult(pairs: Option<seq<(Expr, Expr)>>, s: PState)

  // ---------------------------------------------------------------- statements

  /** parse_statement: dispatch on the current token. */
  function ParseStatement(s: PState): (r: SResult)
    requires Wf(s)
    ensures Later(s, r.s)
    decreases |s.toks| - s.pos, 10
  {
    match Cur(s).kind
    case Let => ParseLet(s)
    case Return => ParseReturn(s)
    case Break => ParseLoopControl(s)
    case Continue => ParseLoopControl(s)
    case _ => ParseExpressionStatement(s)
  }

  /** parse_let_statement: `let` IDENT `=` expression, then one token more and an optional semicolon. */
  function ParseLet(s: PState): (r: SResult)
    requires Wf(s) && Cur(s).kind == Let
    ensures Later(s, r.s)
    decreases |s.toks| - s.pos, 9
  {
    var (ok1, s1) := Expected(s, Ident);
    if !ok1 then SResult(None, s1) else LetValue(s1, Cur(s))
  }

  /** The rest of parse_let_statement once the name is the current token: `=`, the value, then one token more and an optional semicolon. */
  function LetValue(s: PState, tok: Token): (r: SResult)
    requires Wf(s) && Cur(s).kind == Ident
    ensures Later(s, r.s)
    decreases |s.toks| - s.pos, 9
  {
    var name := NewIdentifier(Cur(s), Cur(s).literal);
    var (ok2, s2) := Expected(s, Assign);
    if !ok2 then SResult(None, s2)
    else
      var value := ParseExpression(Advance(s2), Lowest);
      SResult(Some(LetStmt(tok, name.value, value.e)), SkipSemicolon(Advance(value.s)))
  }

  /** parse_return_statement. */
  function ParseReturn(s: PState): (r: SResult)
    requires Wf(s) && Cur(s).kind == Return
    ensures Later(s, r.s)
    decreases |s.toks| - s.pos, 9
  {
    var value := ParseExpression(Advance(s), Lowest);
    SResult(Some(ReturnStmt(Cur(s), value.e)), SkipSemicolon(Advance(value.s)))
  }

  /** parse_break_statement and parse_continue_statement: an error outside a loop body. */
  function ParseLoopControl(s: PState): (r: SResult)
    requires Wf(s) && (Cur(s).kind == Break || Cur(s).kind == Continue)
    ensures Later(s, r.s) && r.s.insideLoop == s.insideLoop
    ensures !s.insideLoop ==> r.st.None? && r.s == AddError(s, IllegalMessage(Cur(s).kind))
    ensures s.insideLoop ==> r.st.Some? && r.s.errors == s.errors
    decreases |s.toks| - s.pos, 9
  {
    if !s.insideLoop then SResult(None, AddError(s, IllegalMessage(Cur(s).kind)))
    else
      var st := if Cur(s).kind == Break then BreakStmt(Cur(s)) else ContinueStmt(Cur(s));
      SResult(Some(st), SkipSemicolon(Advance(s)))
  }

  /** illegal_statement_error's message. */
  function IllegalMessage(t: TokenType): string
  {
    "Illegal " + (if t == Break then "break" else "continue") + " statement"
  }

  /** parse_expression_statement. */
  function ParseExpressionStatement(s: PState): (r: SResult)
    requires Wf(s)
    ensures Later(s, r.s)
    decreases |s.toks| - s.pos, 9
  {
    var value := ParseExpression(s, Lowest);
    SResult(Some(ExprStmt(Cur(s), value.e)), SkipSemicolon(value.s))
  }

  /**
   * The statement loops of parse_block_statement (inBlock: stop at `}` or END_OF_FILE) and of
   * parse_program (stop at END_OF_FILE): parse a statement, keep it unless NULL, advance.
   */
  function Statements(s: PState, acc: seq<Stmt>, inBlock: bool): (r: BResult)
    requires Wf(s)
    ensures Later(s, r.s)
    ensures !r.s.crashed ==> Cur(r.s).kind == EndOfFile || (inBlock && Cur(r.s).kind == RBrace)
    decreases |s.toks| - s.pos, 11
  {
    if Cur(s).kind == EndOfFile || (inBlock && Cur(s).kind == RBrace) then BResult(acc, s)
    else
      var st := ParseStatement(s);
      if st.s.crashed then BResult(acc, st.s)
      else
        var next := Advance(st.s);
        Statements(next, if st.st.Some? then acc + [st.st.value] else acc, inBlock)
  }

  /** The statement loops only append: the statements kept so far stay at the front. */
  lemma {:induction false} StatementsExtend(s: PState, acc: seq<Stmt>, inBlock: bool)
    requires Wf(s)
    ensures acc <= Statements(s, acc, inBlock).stmts
    decreases |s.toks| - s.pos
  {
    if !(Cur(s).kind == EndOfFile || (inBlock && Cur(s).kind == RBrace)) {
      var st := ParseStatement(s);
      if !st.s.crashed {
        var next := Advance(st.s);
        var kept := if st.st.Some? then acc + [st.st.value] else acc;
        StatementsExtend(next, kept, inBlock);
      }
    }
  }

  /** One turn of parse_program's loop: a statement, kept unless NULL, then the parser advanced. */
  lemma {:induction false} StatementsStep(s: PState, acc: seq<Stmt>)
    requires Wf(s) && Cur(s).kind != EndOfFile
    ensures var st := ParseStatement(s);
            Statements(s, acc, false)
            == if st.s.crashed then BResult(acc, st.s)
               else Statements(Advance(st.s), if st.st.Some? then acc + [st.st.value] else acc, false)
    ensures !ParseStatement(s).s.crashed ==> Advance(ParseStatement(s).s).pos > s.pos
  {
    var st := ParseStatement(s);
    if !st.s.crashed && st.s.pos == s.pos {
      assert Cur(st.s) == Cur(s);
    }
  }

  /** parse_program's loop stops at END_OF_FILE with what it has kept. */
  lemma {:induction false} StatementsDone(s: PState, acc: seq<Stmt>)
    requires Wf(s) && Cur(s).kind == EndOfFile
    ensures Statements(s, acc, false) == BResult(acc, s)
  {
  }

  /** parse_block_statement: skip the current token (normally `{`), then statements up to `}` or END_OF_FILE. */
  function ParseBlock(s: PState): (r: BResult)
    requires Wf(s)
    ensures Later(s, r.s)
    decreases |s.toks| - s.pos, 12
  {
    Statements(Advance(s), [], true)
  }

  // ---------------------------------------------------------------- expressions

  function NoPrefixMessage(t: TokenType): string
  {
    "No prefix parse function for " + TypeName(t) + " found"
  }

  /**
   * parse_expression: a token without a prefix parse function records one error and yields NULL;
   * otherwise the prefix parse, then the infix loop.
   */
  function ParseExpression(s: PState, prec: nat): (r: EResult)
    requires Wf(s)
    ensures Later(s, r.s)
    ensures HasPrefix(Cur(s).kind) ==> Settled(r.s, prec)
    ensures !HasPrefix(Cur(s).kind) ==> r == EResult(Nil, AddError(s, NoPrefixMessage(Cur(s).kind)))
    decreases |s.toks| - s.pos, 8
  {
    if !HasPrefix(Cur(s).kind) then EResult(Nil, AddError(s, NoPrefixMessage(Cur(s).kind)))
    else
      var left := ParsePrefix(s);
      InfixLoop(left.s, prec, left.e)
  }

  /** The while loop of parse_expression: continue while the peek token is not `;` and binds tighter than prec. */
  function InfixLoop(s: PState, prec: nat, left: Expr): (r: EResult)
    requires Wf(s)
    ensures Later(s, r.s) && Settled(r.s, prec)
    decreases |s.toks| - s.pos, 6
  {
    if Peek(s).kind != Semicolon && prec < Precedence(Peek(s).kind) then
      if !HasInfix(Peek(s).kind) then EResult(left, s)
      else
        var next := ParseInfix(Advance(s), left);
        InfixLoop(next.s, prec, next.e)
    else EResult(left, s)
  }

  /** The prefix parse functions, by the current token. */
  function ParsePrefix(s: PState): (r: EResult)
    requires Wf(s) && HasPrefix(Cur(s).kind)
    ensures Later(s, r.s)
    decreases |s.toks| - s.pos, 7
  {
    var tok := Cur(s);
    match tok.kind
    case Ident => EResult(NewIdentifier(tok, tok.literal), s)
    case Number => EResult(NumberLiteral(tok, DecimalValue(tok.literal)), s)
    case Binary => EResult(NumberLiteral(tok, BinaryValue(tok.literal) as real), s)
    case Hex => EResult(NumberLiteral(tok, HexValue(tok.literal[HexStart(tok.literal)..]) as real), s)
    case True => EResult(BooleanLiteral(tok, true), s)
    case False => EResult(BooleanLiteral(tok, false), s)
    case Str => EResult(StringLiteral(tok, tok.literal), s)
    case Bang => ParsePrefixExpression(s)
    case Minus => ParsePrefixExpression(s)
    case LParen => ParseGrouped(s)
    case If => ParseIf(s)
    case Function => ParseFunction(s)
    case LBracket => ParseArray(s)
    case LBrace => ParseHash(s)
    case While => ParseWhile(s)
    case For => ParseFor(s)
  }

  /** parse_prefix_expression: the operand is parsed at PREFIX precedence. */
  function ParsePrefixExpression(s: PState): (r: EResult)
    requires Wf(s) && Cur(s).kind != EndOfFile
    ensures Later(s, r.s)
    decreases |s.toks| - s.pos, 5
  {
    var right := ParseExpression(Advance(s), PrefixPrec);
    EResult(PrefixExpr(Cur(s), Cur(s).literal, right.e), right.s)
  }

  /** parse_grouped_expression: `(` expression `)`; a missing `)` yields NULL. */
  function ParseGrouped(s: PState): (r: EResult)
    requires Wf(s) && Cur(s).kind != EndOfFile
    ensures Later(s, r.s)
    decreases |s.toks| - s.pos, 5
  {
    var inner := ParseExpression(Advance(s), Lowest);
    var (ok, s1) := Expected(inner.s, RParen);
    EResult(if ok then inner.e else Nil, s1)
  }

  /** parse_if_expression: `if` `(` condition `)` then the blocks. */
  function ParseIf(s: PState): (r: EResult)
    requires Wf(s) && Cur(s).kind != EndOfFile
    ensures Later(s, r.s)
    decreases |s.toks| - s.pos, 5
  {
    var (ok1, s1) := Expected(s, LParen);
    if !ok1 then EResult(Nil, s1)
    else
      var cond := ParseExpression(Advance(s1), Lowest);
      IfBlocks(cond.s, cond.e)
  }

  /** The rest of parse_if_expression after the condition: `)`, `{`, the consequence. */
  function IfBlocks(s: PState, cond: Expr): (r: EResult)
    requires Wf(s)
    ensures Later(s, r.s)
    decreases |s.toks| - s.pos, 5
  {
    var (ok2, s2) := Expected(s, RParen);
    if !ok2 then EResult(Nil, s2) else IfConsequence(s2, cond)
  }

  /** After the `)` of parse_if_expression: `{` and the consequence, then the alternative. */
  function IfConsequence(s: PState, cond: Expr): (r: EResult)
    requires Wf(s) && Cur(s).kind == RParen
    ensures Later(s, r.s)
    decreases |s.toks| - s.pos, 5
  {
    var (ok3, s3) := Expected(s, LBrace);
    if !ok3 then EResult(Nil, s3)
    else
      var cons := ParseBlock(s3);
      IfAlternative(cons.s, cond, cons.stmts)
  }

  /** The optional `else` `{` block of parse_if_expression. */
  function IfAlternative(s: PState, cond: Expr, cons: seq<Stmt>): (r: EResult)
    requires Wf(s)
    ensures Later(s, r.s)
    decreases |s.toks| - s.pos, 5
  {
    if Peek(s).kind != Else then EResult(IfExpr(cond, cons, NoElse), s)
    else
      var (ok4, s4) := Expected(Advance(s), LBrace);
      if !ok4 then EResult(Nil, s4)
      else
        var alt := ParseBlock(s4);
        EResult(IfExpr(cond, cons, ElseBlock(alt.stmts)), alt.s)
  }

  /** The names of a `, IDENT , IDENT ...` run after position i: the token after each comma. */
  function CommaNames(toks: seq<Token>, i: nat): seq<string>
    decreases |toks| - i
  {
    if i + 2 < |toks| && toks[i + 1].kind == Comma then [toks[i + 2].literal] + CommaNames(toks, i + 2) else []
  }

  /** The `, IDENT` loop of parse_function_parameters. */
  function ParamsLoop(s: PState, acc: seq<string>): (r: (seq<string>, PState))
    requires Wf(s)
    ensures Later(s, r.1) && r.1.errors == s.errors && r.1.insideLoop == s.insideLoop && r.1.crashed == s.crashed
    ensures Peek(r.1).kind != Comma
    decreases |s.toks| - s.pos
  {
    if Peek(s).kind == Comma then
      var s1 := Advance(Advance(s));
      ParamsLoop(s1, acc + [NewIdentifier(Cur(s1), Cur(s1).literal).value])
    else (acc, s)
  }

  /** The loop collects exactly the name after each comma, after the names it was given. */
  lemma {:induction false} ParamsLoopNames(s: PState, acc: seq<string>)
    requires Wf(s)
    ensures ParamsLoop(s, acc).0 == acc + CommaNames(s.toks, s.pos)
    decreases |s.toks| - s.pos
  {
    if Peek(s).kind == Comma {
      var i := s.pos;
      assert i + 2 < |s.toks| && s.toks[i + 1].kind == Comma;
      var s1 := s.(pos := i + 2);
      assert Advance(Advance(s)) == s1;
      var name := s.toks[i + 2].literal;
      assert ParamsLoop(s, acc) == ParamsLoop(s1, acc + [name]);
      ParamsLoopNames(s1, acc + [name]);
      Seqs.AppendAssoc(acc, [name], CommaNames(s.toks, i + 2));
    }
  }

  /** parse_function_parameters: None stands for the `len = -1` failure. */
  function ParseParameters(s: PState): (r: (Option<seq<string>>, PState))
    requires Wf(s)
    ensures Later(s, r.1) && r.1.insideLoop == s.insideLoop && r.1.crashed == s.crashed
  {
    if Peek(s).kind == RParen then (Some([]), Advance(s))
    else
      var s1 := Advance(s);
      var (params, s2) := ParamsLoop(s1, [NewIdentifier(Cur(s1), Cur(s1).literal).value]);
      var (ok, s3) := Expected(s2, RParen);
      (if ok then Some(params) else None, s3)
  }

  /** `()` gives no parameters; otherwise the names are the identifier after `(` and the one after
      each comma, and the list must be closed by `)` or one error is recorded. */
  lemma ParseParametersNames(s: PState)
    requires Wf(s)
    ensures Peek(s).kind == RParen ==> ParseParameters(s) == (Some([]), Advance(s))
    ensures Peek(s).kind != RParen && ParseParameters(s).0.Some? ==>
      ParseParameters(s).0.value == [Peek(s).literal] + CommaNames(s.toks, Advance(s).pos)
    ensures ParseParameters(s).0.Some? ==> Cur(ParseParameters(s).1).kind == RParen && ParseParameters(s).1.errors == s.errors
    ensures ParseParameters(s).0.None? ==> |ParseParameters(s).1.errors| == |s.errors| + 1
  {
    if Peek(s).kind != RParen {
      var s1 := Advance(s);
      ParamsLoopNames(s1, [Cur(s1).literal]);
    }
  }

  /** parse_function_literal; the literal's token is the `(` (cur_token after expect_peek). */
  function ParseFunction(s: PState): (r: EResult)
    requires Wf(s) && Cur(s).kind != EndOfFile
    ensures Later(s, r.s)
    decreases |s.toks| - s.pos, 5
  {
    var (ok1, s1) := Expected(s, LParen);
    if !ok1 then EResult(Nil, s1)
    else
      var (params, s2) := ParseParameters(s1);
      if params.None? then EResult(Nil, s2)
      else
        var (ok3, s3) := Expected(s2, LBrace);
        if !ok3 then EResult(Nil, s3)
        else
          var body := ParseBlock(s3);
          EResult(FnLiteral(Cur(s1), params.value, body.stmts), body.s)
  }

  /** What parse_function_literal makes of a failed parameter list as written. */
  datatype BadParams = Aborted | CorruptLiteral(body: seq<Stmt>)

  /**
   * parse_function_literal after parse_function_parameters has failed, as written: the length is
   * a size_t, so the `len < 0` test never holds and parsing goes on with a NULL block whose length
   * is SIZE_MAX. If `{` does not follow, array_free walks that block and the program aborts;
   * otherwise the body is parsed into a literal whose parameter array cannot be used.
   */
  function AfterBadParamsAsWritten(s2: PState): (r: (BadParams, PState))
    requires Wf(s2)
    ensures r.0.Aborted? <==> Peek(s2).kind != LBrace
    ensures r.0.Aborted? ==> r.1 == AddError(s2, PeekErrorMessage(LBrace, Peek(s2).kind)).(crashed := true)
    ensures Later(s2, r.1)
  {
    var (ok3, s3) := Expected(s2, LBrace);
    if !ok3 then (Aborted, s3.(crashed := true))
    else
      var body := ParseBlock(s3);
      (CorruptLiteral(body.stmts), body.s)
  }

  /** The `, expression` loop shared by array literals and call arguments. */
  function ListLoop(s: PState, acc: seq<Expr>): (r: LResult)
    requires Wf(s)
    ensures Later(s, r.s)
    decreases |s.toks| - s.pos, 3
  {
    if Peek(s).kind == Comma then
      var item := ParseExpression(Advance(Advance(s)), Lowest);
      ListLoop(item.s, acc + [item.e])
    else LResult(acc, s)
  }

  /** The list loop only appends: the items parsed so far stay at the front. */
  lemma {:induction false} ListLoopExtends(s: PState, acc: seq<Expr>)
    requires Wf(s)
    ensures acc <= ListLoop(s, acc).list
    decreases |s.toks| - s.pos
  {
    if Peek(s).kind == Comma {
      var item := ParseExpression(Advance(Advance(s)), Lowest);
      ListLoopExtends(item.s, acc + [item.e]);
    }
  }

  /** A list that ends with `closer`: empty when the peek token is the closer, else items separated by commas; None when the closer is missing. */
  function ParseList(s: PState, closer: TokenType): (r: (Option<seq<Expr>>, PState))
    requires Wf(s) && Cur(s).kind != EndOfFile
    ensures Later(s, r.1)
    decreases |s.toks| - s.pos, 4
  {
    if Peek(s).kind == closer then (Some([]), Advance(s))
    else
      var first := ParseExpression(Advance(s), Lowest);
      var items := ListLoop(first.s, [first.e]);
      var (ok, s3) := Expected(items.s, closer);
      (if ok then Some(items.list) else None, s3)
  }

  /** parse_array_literal. */
  function ParseArray(s: PState): (r: EResult)
    requires Wf(s) && Cur(s).kind != EndOfFile
    ensures Later(s, r.s)
    decreases |s.toks| - s.pos, 5
  {
    var (items, s1) := ParseList(s, RBracket);
    EResult(if items.Some? then ArrayLiteral(Cur(s), items.value) else Nil, s1)
  }

  /** The loop of parse_hash_literal: `key : value` pairs separated by commas until the peek token is `}`; None when a `:` or `,` is missing. */
  function HashLoop(s: PState, acc: seq<(Expr, Expr)>): (r: HResult)
    requires Wf(s) && Cur(s).kind != EndOfFile
    ensures Later(s, r.s)
    decreases |s.toks| - s.pos, 3
  {
    if Peek(s).kind == RBrace then HResult(Some(acc), s)
    else
      var key := ParseExpression(Advance(s), Lowest);
      HashValue(key.s, acc, key.e)
  }

  /** After a key: `:` and the value. */
  function HashValue(s: PState, acc: seq<(Expr, Expr)>, key: Expr): (r: HResult)
    requires Wf(s)
    ensures Later(s, r.s)
    decreases |s.toks| - s.pos, 3
  {
    var (ok, s1) := Expected(s, Colon);
    if !ok then HResult(None, s1)
    else
      var value := ParseExpression(Advance(s1), Lowest);
      HashNext(value.s, acc + [(key, value.e)])
  }

  /** After a pair: the end of the literal, or a `,` and the next pair. */
  function HashNext(s: PState, acc: seq<(Expr, Expr)>): (r: HResult)
    requires Wf(s)
    ensures Later(s, r.s)
    decreases |s.toks| - s.pos, 3
  {
    if Peek(s).kind == RBrace then HResult(Some(acc), s)
    else
      var (ok, s1) := Expected(s, Comma);
      if !ok then HResult(None, s1) else HashLoop(s1, acc)
  }

  /** parse_hash_literal. */
  function ParseHash(s: PState): (r: EResult)
    requires Wf(s) && Cur(s).kind != EndOfFile
    ensures Later(s, r.s)
    decreases |s.toks| - s.pos, 5
  {
    var pairs := HashLoop(s, []);
    if pairs.pairs.None? then EResult(Nil, pairs.s)
    else
      var (ok, s1) := Expected(pairs.s, RBrace);
      EResult(if ok then HashLiteral(Cur(s), pairs.pairs.value) else Nil, s1)
  }

  /** parse_while_loop: sets INSIDE_LOOP when it was clear and clears it again only on success. */
  function ParseWhile(s: PState): (r: EResult)
    requires Wf(s) && Cur(s).kind != EndOfFile
    ensures Later(s, r.s)
    ensures r.e.WhileLoop? ==> r.s.insideLoop == s.insideLoop
    ensures !r.e.WhileLoop? ==> r.e == Nil && r.s.insideLoop
    decreases |s.toks| - s.pos, 5
  {
    var alter := !s.insideLoop;
    var (ok1, s1) := Expected(s.(insideLoop := true), LParen);
    if !ok1 then EResult(Nil, s1)
    else
      var rest := WhileRest(s1, Cur(s));
      EResult(rest.e, if alter && rest.e.WhileLoop? then rest.s.(insideLoop := false) else rest.s)
  }

  /** parse_while_loop from its `(`: the condition, `)` and the body. */
  function WhileRest(s: PState, tok: Token): (r: EResult)
    requires Wf(s) && Cur(s).kind == LParen
    ensures Later(s, r.s)
    ensures r.e.WhileLoop? || r.e == Nil
    decreases |s.toks| - s.pos, 5
  {
    var cond := ParseExpression(Advance(s), Lowest);
    var (ok2, s2) := Expected(cond.s, RParen);
    if !ok2 then EResult(Nil, s2)
    else
      assert s.pos < Advance(s).pos <= s2.pos;
      var body := ParseBlock(Advance(s2));
      EResult(WhileLoop(tok, cond.e, body.stmts), body.s)
  }

  /** parse_if_exists: an absent clause (`;` next, or `;` `)`), or the statement after the current token. */
  function ParseClause(s: PState): (r: (Clause, PState))
    requires Wf(s)
    ensures Later(s, r.1)
    decreases |s.toks| - s.pos, 11
  {
    if Peek(s).kind == Semicolon then (NoClause, Advance(s))
    else if Cur(s).kind == Semicolon && Peek(s).kind == RParen then (NoClause, s)
    else
      var st := ParseStatement(Advance(s));
      (if st.st.Some? then ClauseStmt(st.st.value) else NoClause, st.s)
  }

  /** The expression a statement holds (the for loop's condition is taken from its statement). */
  function StmtExpression(c: Clause): Expr
  {
    match c
    case ClauseStmt(LetStmt(_, _, v)) => v
    case ClauseStmt(ReturnStmt(_, v)) => v
    case ClauseStmt(ExprStmt(_, v)) => v
    case _ => Nil
  }

  /** parse_for_loop: `for` `(` init condition update `)` block; INSIDE_LOOP as in parse_while_loop. */
  function ParseFor(s: PState): (r: EResult)
    requires Wf(s) && Cur(s).kind != EndOfFile
    ensures Later(s, r.s)
    ensures r.e.ForLoop? ==> r.s.insideLoop == s.insideLoop
    ensures !r.e.ForLoop? ==> r.e == Nil && r.s.insideLoop
    decreases |s.toks| - s.pos, 5
  {
    var alter := !s.insideLoop;
    var (ok1, s1) := Expected(s.(insideLoop := true), LParen);
    if !ok1 then EResult(Nil, s1)
    else
      var rest := ForHeader(s1);
      EResult(rest.e, if alter && rest.e.ForLoop? then rest.s.(insideLoop := false) else rest.s)
  }

  /** parse_for_loop from its `(`: the initialisation and condition clauses, then the rest. */
  function ForHeader(s: PState): (r: EResult)
    requires Wf(s) && Cur(s).kind == LParen
    ensures Later(s, r.s)
    ensures r.e.ForLoop? || r.e == Nil
    decreases |s.toks| - s.pos, 13
  {
    var (init, s2) := ParseClause(s);
    var (cond, s3) := ParseClause(s2);
    ForRest(s3, init, StmtExpression(cond))
  }

  /** The update clause of parse_for_loop and the `)` after it (skipped only when present). */
  function ForUpdate(s: PState): (r: (Clause, PState))
    requires Wf(s)
    ensures Later(s, r.1)
    decreases |s.toks| - s.pos, 11
  {
    if Peek(s).kind == RParen then (NoClause, Advance(s))
    else
      var st := ParseStatement(Advance(s));
      (if st.st.Some? then ClauseStmt(st.st.value) else NoClause,
       if Peek(st.s).kind == RParen then Advance(st.s) else st.s)
  }

  /** The end of parse_for_loop: update, `{` and the body. */
  function ForRest(s: PState, init: Clause, cond: Expr): (r: EResult)
    requires Wf(s)
    ensures Later(s, r.s)
    ensures r.e.ForLoop? || r.e == Nil
    decreases |s.toks| - s.pos, 12
  {
    var (update, s4) := ForUpdate(s);
    var (ok5, s5) := Expected(s4, LBrace);
    if !ok5 then EResult(Nil, s5)
    else
      var body := ParseBlock(s5);
      EResult(ForLoop(init, cond, update, body.stmts), body.s)
  }

  /** The infix parse functions, by the operator token now current. */
  function ParseInfix(s: PState, left: Expr): (r: EResult)
    requires Wf(s) && HasInfix(Cur(s).kind)
    ensures Later(s, r.s)
    decreases |s.toks| - s.pos, 5
  {
    var tok := Cur(s);
    if tok.kind == LParen then
      var (args, s1) := ParseList(s, RParen);
      EResult(if args.Some? then CallExpr(tok, left, args.value) else Nil, s1)
    else if tok.kind == LBracket then
      var index := ParseExpression(Advance(s), Lowest);
      var (ok, s1) := Expected(index.s, RBracket);
      EResult(if ok then IndexExpr(tok, left, index.e) else Nil, s1)
    else if tok.kind == Assign then
      if !left.Identifier? then EResult(Nil, s.(crashed := true))
      else
        var value := ParseExpression(Advance(s), Lowest);
        EResult(Reassignment(tok, left.value, value.e), value.s)
    else
      var right := ParseExpression(Advance(s), Precedence(tok.kind));
      EResult(InfixExpr(tok, left, tok.literal, right.e), right.s)
  }

  // ---------------------------------------------------------------- programs

  /** parse_program on a fresh parser: the statements and errors, or None when an assert aborts. */
  function ParseProgramSpec(toks: seq<Token>, insideLoop: bool): Option<(seq<Stmt>, seq<string>)>
    requires WellFormedTokens(toks)
  {
    var r := Statements(PState(toks, 0, [], insideLoop, false), [], false);
    if r.s.crashed then None else Some((r.stmts, r.s.errors))
  }

  /** Lexing then parsing a source text; None when the lexer or the parser aborts. */
  function Parse(input: string, insideLoop: bool): Option<(seq<Stmt>, seq<string>)>
    requires Lexer.CString(input)
  {
    Lexer.TokensEndInEof(input, 0);
    match Lexer.Tokens(input, 0)
    case None => None
    case Some(toks) => ParseProgramSpec(toks, insideLoop)
  }

  // ---------------------------------------------------------------- the parser object

  /** struct Parser: the tokens the lexer produces, cur_token's position, the errors, and the static INSIDE_LOOP. */
  class Parser {
    const toks: seq<Token>
    var pos: nat
    var errors: seq<string>
    var insideLoop: bool

    function State(): PState
      reads this
    {
      PState(toks, pos, errors, insideLoop, false)
    }

    predicate Valid()
      reads this
    {
      Wf(State())
    }

    /** new_parser: two parser_next_token calls leave cur_token at the first token; INSIDE_LOOP keeps its value. */
    constructor (tokens: seq<Token>, loopFlag: bool)
      requires WellFormedTokens(tokens)
      ensures State() == PState(tokens, 0, [], loopFlag, false) && Valid()
    {
      toks := tokens;
      pos := 0;
      errors := [];
      insideLoop := loopFlag;
    }

    function CurToken(): Token
      reads this
      requires Valid()
    {
      toks[pos]
    }

    /** parser_next_token. */
    method NextToken()
      requires Valid()
      modifies this
      ensures State() == Advance(old(State())) && Valid()
    {
      if pos + 1 < |toks| {
        pos := pos + 1;
      }
    }

    /** peek_error: append the message naming the expected kind and the peek token's kind. */
    method PeekError(t: TokenType)
      requires Valid()
      modifies this
      ensures State() == AddError(old(State()), PeekErrorMessage(t, Peek(old(State())).kind)) && Valid()
    {
      var next := if pos + 1 < |toks| then toks[pos + 1] else toks[pos];
      errors := errors + [PeekErrorMessage(t, next.kind)];
    }

    /** expect_peek: advance when the peek token has kind t, otherwise append peek_error's message. */
    method ExpectPeek(t: TokenType) returns (ok: bool)
      requires Valid()
      modifies this
      ensures (ok, State()) == Expected(old(State()), t) && Valid()
    {
      ghost var s := State();
      var next := if pos + 1 < |toks| then toks[pos + 1] else toks[pos];
      assert next == Peek(s);
      if next.kind == t {
        NextToken();
        ok := true;
        assert Expected(s, t) == (true, Advance(s));
      } else {
        PeekError(t);
        ok := false;
      }
    }

    /**
     * parse_program: statements until END_OF_FILE, each kept unless NULL, the parser advanced
     * after each; None when an assert aborts the program.
     */
    method ParseProgram() returns (program: Option<seq<Stmt>>)
      requires Valid()
      modifies this
      ensures var r := Statements(old(State()), [], false);
        program == (if r.s.crashed then None else Some(r.stmts))
        && (!r.s.crashed ==> State() == r.s && CurToken().kind == EndOfFile)
    {
      ghost var start := State();
      var stmts: seq<Stmt> := [];
      while toks[pos].kind != EndOfFile
        invariant Valid()
        invariant Statements(start, [], false) == Statements(State(), stmts, false)
        decreases |toks| - pos
      {
        var cur := State();
        var r := ParseStatement(cur);
        StatementsStep(cur, stmts);
        if r.s.crashed {
          return None;
        }
        pos, errors, insideLoop := r.s.pos, r.s.errors, r.s.insideLoop;
        assert State() == r.s;
        if r.st.Some? {
          stmts := stmts + [r.st.value];
        }
        NextToken();
      }
      StatementsDone(State(), stmts);
      program := Some(stmts);
    }
  }

  /** parse_program on a fresh parser yields what ParseProgramSpec describes. */
  method ParseTokens(tokens: seq<Token>, loopFlag: bool) returns (program: Option<seq<Stmt>>, errors: seq<string>)
    requires WellFormedTokens(tokens)
    ensures var spec := ParseProgramSpec(tokens, loopFlag);
      (spec.None? <==> program.None?) && (spec.Some? ==> program == Some(spec.value.0) && errors == spec.value.1)
  {
    var p := new Parser(tokens, loopFlag);
    program := p.ParseProgram();
    errors := p.errors;
  }
}
