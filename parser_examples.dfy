// Worked cases of the operator-precedence tests (src/parser/parser_test.c): a token stream,
// the program the parser builds from it, and the string the printer makes of that program.
// Each case is proved for a family of token streams (any names, any binary operator) and
// then instantiated with the test's own tokens.

module ParserExamples {
  import opened Wrappers
  import opened Token
  import opened Ast
  import opened Parser

  const MinusTok := Token(Minus, "-")
  const StarTok := Token(Asterisk, "*")
  const PlusTok := Token(Plus, "+")
  const SlashTok := Token(Slash, "/")
  const Eof := Token(EndOfFile, "")

  function Id(name: string): Token
  {
    Token(Ident, name)
  }

  function Var(name: string): Expr
  {
    Identifier(Id(name), name)
  }

  function At(toks: seq<Token>, pos: nat): PState
  {
    PState(toks, pos, [], false, false)
  }

  // ---------------------------------------------------------------- a prefix operator, then a binary one

  /** The tokens of "p a o b". */
  function PrefixChain(p: Token, a: string, o: Token, b: string): seq<Token>
  {
    [p, Id(a), o, Id(b), Eof]
  }

  /** The tree of "p a o b": the prefix operator binds tighter than any binary operator. */
  function PrefixTree(p: Token, a: string, o: Token, b: string): Expr
  {
    InfixExpr(o, PrefixExpr(p, p.literal, Var(a)), o.literal, Var(b))
  }

  /** No binary operator binds as tightly as PREFIX. */
  lemma {:induction false} BinaryBelowPrefix(t: TokenType)
    requires BinaryOperator(t)
    ensures Lowest < Precedence(t) < PrefixPrec
  {
    PrecedenceMatchesInfix(t);
  }

  /** The positions of "p a o b": what is current, what is next, and where each advance leads. */
  lemma {:induction false} PrefixChainPositions(p: Token, a: string, o: Token, b: string)
    requires p.kind == Minus || p.kind == Bang
    requires BinaryOperator(o.kind)
    ensures var t := PrefixChain(p, a, o, b);
      WellFormedTokens(t)
      && Cur(At(t, 0)) == p && Advance(At(t, 0)) == At(t, 1)
      && Cur(At(t, 1)) == Id(a) && Peek(At(t, 1)) == o && Advance(At(t, 1)) == At(t, 2)
      && Cur(At(t, 2)) == o && Advance(At(t, 2)) == At(t, 3)
      && Cur(At(t, 3)) == Id(b) && Peek(At(t, 3)) == Eof && Advance(At(t, 3)) == At(t, 4)
      && Cur(At(t, 4)) == Eof
  {
    var t := PrefixChain(p, a, o, b);
    assert forall i | 0 <= i < 4 :: t[i].kind != EndOfFile;
  }

  /** The prefix expression "p a" ends before the binary operator. */
  lemma {:induction false} PrefixOperand(p: Token, a: string, o: Token, b: string)
    requires p.kind == Minus || p.kind == Bang
    requires BinaryOperator(o.kind)
    ensures WellFormedTokens(PrefixChain(p, a, o, b))
    ensures var t := PrefixChain(p, a, o, b);
      ParsePrefix(At(t, 0)) == EResult(PrefixExpr(p, p.literal, Var(a)), At(t, 1))
  {
    PrefixChainPositions(p, a, o, b);
    BinaryBelowPrefix(o.kind);
    var t := PrefixChain(p, a, o, b);
    IdentifierAlone(t, 1, PrefixPrec);
  }

  /** An expression followed by END_OF_FILE is complete at any precedence. */
  lemma {:induction false} EofSettles(s: PState, prec: nat, e: Expr)
    requires Wf(s) && Peek(s).kind == EndOfFile && prec >= Lowest
    ensures InfixLoop(s, prec, e) == EResult(e, s)
  {
  }

  /** The binary operator takes b as its right operand. */
  lemma {:induction false} PrefixRight(p: Token, a: string, o: Token, b: string)
    requires p.kind == Minus || p.kind == Bang
    requires BinaryOperator(o.kind)
    ensures WellFormedTokens(PrefixChain(p, a, o, b))
    ensures var t := PrefixChain(p, a, o, b);
      ParseInfix(At(t, 2), PrefixExpr(p, p.literal, Var(a))) == EResult(PrefixTree(p, a, o, b), At(t, 3))
  {
    PrefixChainPositions(p, a, o, b);
    BinaryBelowPrefix(o.kind);
    var t := PrefixChain(p, a, o, b);
    IdentifierAlone(t, 3, Precedence(o.kind));
  }

  /** The binary operator takes the prefix expression as its left operand and b as its right one. */
  lemma {:induction false} PrefixInfix(p: Token, a: string, o: Token, b: string)
    requires p.kind == Minus || p.kind == Bang
    requires BinaryOperator(o.kind)
    ensures WellFormedTokens(PrefixChain(p, a, o, b))
    ensures var t := PrefixChain(p, a, o, b);
      InfixLoop(At(t, 1), Lowest, PrefixExpr(p, p.literal, Var(a))) == EResult(PrefixTree(p, a, o, b), At(t, 3))
  {
    PrefixChainPositions(p, a, o, b);
    BinaryBelowPrefix(o.kind);
    PrefixRight(p, a, o, b);
    var t := PrefixChain(p, a, o, b);
    EofSettles(At(t, 3), Lowest, PrefixTree(p, a, o, b));
  }

  /** "p a o b" parses, without errors, into the one statement ((p a) o b). */
  lemma {:induction false} PrefixChainParses(p: Token, a: string, o: Token, b: string)
    requires p.kind == Minus || p.kind == Bang
    requires BinaryOperator(o.kind)
    ensures WellFormedTokens(PrefixChain(p, a, o, b))
    ensures ParseProgramSpec(PrefixChain(p, a, o, b), false) == Some(([ExprStmt(p, PrefixTree(p, a, o, b))], []))
  {
    PrefixChainPositions(p, a, o, b);
    PrefixOperand(p, a, o, b);
    PrefixInfix(p, a, o, b);
    var t := PrefixChain(p, a, o, b);
    var st := ExprStmt(p, PrefixTree(p, a, o, b));
    var s0, s3, s4 := At(t, 0), At(t, 3), At(t, 4);
    assert ParseExpression(s0, Lowest) == EResult(PrefixTree(p, a, o, b), s3);
    assert SkipSemicolon(s3) == s3;
    assert ParseStatement(s0) == SResult(Some(st), s3);
    assert Statements(s4, [st], false) == BResult([st], s4);
    assert Statements(s0, [], false) == BResult([st], s4);
  }

  /** The tokens of "-a * b". */
  const NegTimes: seq<Token> := PrefixChain(MinusTok, "a", StarTok, "b")
  const NegTimesTree: Expr := InfixExpr(StarTok, PrefixExpr(MinusTok, "-", Var("a")), "*", Var("b"))

  /** The test "-a * b" parses into ((-a) * b); NegTimesPrints gives "((-a) * b);\n". */
  lemma {:induction false} NegTimesParses()
    ensures WellFormedTokens(NegTimes)
    ensures ParseProgramSpec(NegTimes, false) == Some(([ExprStmt(MinusTok, NegTimesTree)], []))
  {
    PrefixChainParses(MinusTok, "a", StarTok, "b");
  }

  // ---------------------------------------------------------------- two binary operators

  /** An operator parsed by parse_infix_expression (not a call, an index or a reassignment). */
  predicate BinaryOperator(t: TokenType)
  {
    HasInfix(t) && t != LParen && t != LBracket && t != Assign
  }

  /** The tokens of "a o1 b o2 c". */
  function Chain(a: string, o1: Token, b: string, o2: Token, c: string): seq<Token>
  {
    [Id(a), o1, Id(b), o2, Id(c), Eof]
  }

  /** An identifier not followed by a tighter operator is parsed by itself. */
  lemma {:induction false} IdentifierAlone(toks: seq<Token>, i: nat, prec: nat)
    requires Wf(At(toks, i)) && Cur(At(toks, i)).kind == Ident
    requires Peek(At(toks, i)).kind == EndOfFile || Precedence(Peek(At(toks, i)).kind) <= prec
    requires prec >= Lowest
    ensures ParseExpression(At(toks, i), prec) == EResult(Identifier(Cur(At(toks, i)), Cur(At(toks, i)).literal), At(toks, i))
  {
    var s := At(toks, i);
    assert InfixLoop(s, prec, Identifier(Cur(s), Cur(s).literal)) == EResult(Identifier(Cur(s), Cur(s).literal), s);
  }

  lemma {:induction false} ChainWellFormed(a: string, o1: Token, b: string, o2: Token, c: string)
    requires BinaryOperator(o1.kind) && BinaryOperator(o2.kind)
    ensures WellFormedTokens(Chain(a, o1, b, o2, c))
  {
    var t := Chain(a, o1, b, o2, c);
    assert forall i | 0 <= i < 5 :: t[i].kind != EndOfFile;
  }

  /** The tree of "a o1 b o2 c": left-nested when o1 binds at least as tightly as o2, right-nested otherwise. */
  function ChainTree(a: string, o1: Token, b: string, o2: Token, c: string): Expr
  {
    if Precedence(o1.kind) >= Precedence(o2.kind) then
      InfixExpr(o2, InfixExpr(o1, Var(a), o1.literal, Var(b)), o2.literal, Var(c))
    else
      InfixExpr(o1, Var(a), o1.literal, InfixExpr(o2, Var(b), o2.literal, Var(c)))
  }

  /** The positions of "a o1 b o2 c": what is current, what is next, and where each advance leads. */
  lemma {:induction false} ChainPositions(a: string, o1: Token, b: string, o2: Token, c: string)
    requires BinaryOperator(o1.kind) && BinaryOperator(o2.kind)
    ensures var t := Chain(a, o1, b, o2, c);
      WellFormedTokens(t)
      && Cur(At(t, 0)) == Id(a) && Peek(At(t, 0)) == o1 && Advance(At(t, 0)) == At(t, 1)
      && Cur(At(t, 1)) == o1 && Advance(At(t, 1)) == At(t, 2)
      && Cur(At(t, 2)) == Id(b) && Peek(At(t, 2)) == o2 && Advance(At(t, 2)) == At(t, 3)
      && Cur(At(t, 3)) == o2 && Advance(At(t, 3)) == At(t, 4)
      && Cur(At(t, 4)) == Id(c) && Peek(At(t, 4)) == Eof
  {
    ChainWellFormed(a, o1, b, o2, c);
  }

  /** o1 binds at least as tightly: (a o1 b) is the left operand of o2. */
  lemma {:induction false} ChainLeft(a: string, o1: Token, b: string, o2: Token, c: string)
    requires BinaryOperator(o1.kind) && BinaryOperator(o2.kind)
    requires Precedence(o1.kind) >= Precedence(o2.kind)
    ensures WellFormedTokens(Chain(a, o1, b, o2, c))
    ensures ParseExpression(At(Chain(a, o1, b, o2, c), 0), Lowest) == EResult(ChainTree(a, o1, b, o2, c), At(Chain(a, o1, b, o2, c), 4))
  {
    ChainPositions(a, o1, b, o2, c);
    PrecedenceMatchesInfix(o1.kind);
    PrecedenceMatchesInfix(o2.kind);
    var t := Chain(a, o1, b, o2, c);
    var s0, s1, s2, s3, s4 := At(t, 0), At(t, 1), At(t, 2), At(t, 3), At(t, 4);
    IdentifierAlone(t, 4, Precedence(o2.kind));
    IdentifierAlone(t, 2, Precedence(o1.kind));
    var left := InfixExpr(o1, Var(a), o1.literal, Var(b));
    assert ParseInfix(s1, Var(a)) == EResult(left, s2);
    var tree := InfixExpr(o2, left, o2.literal, Var(c));
    assert ParseInfix(s3, left) == EResult(tree, s4);
    assert InfixLoop(s4, Lowest, tree) == EResult(tree, s4);
    assert InfixLoop(s2, Lowest, left) == EResult(tree, s4);
    assert InfixLoop(s0, Lowest, Var(a)) == EResult(tree, s4);
    assert ParsePrefix(s0) == EResult(Var(a), s0);
  }

  /** o2 binds tighter: (b o2 c) is the right operand of o1. */
  lemma {:induction false} ChainRight(a: string, o1: Token, b: string, o2: Token, c: string)
    requires BinaryOperator(o1.kind) && BinaryOperator(o2.kind)
    requires Precedence(o1.kind) < Precedence(o2.kind)
    ensures WellFormedTokens(Chain(a, o1, b, o2, c))
    ensures ParseExpression(At(Chain(a, o1, b, o2, c), 0), Lowest) == EResult(ChainTree(a, o1, b, o2, c), At(Chain(a, o1, b, o2, c), 4))
  {
    ChainPositions(a, o1, b, o2, c);
    PrecedenceMatchesInfix(o1.kind);
    PrecedenceMatchesInfix(o2.kind);
    var t := Chain(a, o1, b, o2, c);
    var s0, s1, s2, s3, s4 := At(t, 0), At(t, 1), At(t, 2), At(t, 3), At(t, 4);
    var p1 := Precedence(o1.kind);
    IdentifierAlone(t, 4, Precedence(o2.kind));
    IdentifierAlone(t, 4, p1);
    var right := InfixExpr(o2, Var(b), o2.literal, Var(c));
    assert ParseInfix(s3, Var(b)) == EResult(right, s4);
    assert InfixLoop(s4, p1, right) == EResult(right, s4);
    assert InfixLoop(s2, p1, Var(b)) == EResult(right, s4);
    assert ParseExpression(s2, p1) == EResult(right, s4);
    var tree := InfixExpr(o1, Var(a), o1.literal, right);
    assert ParseInfix(s1, Var(a)) == EResult(tree, s4);
    assert InfixLoop(s4, Lowest, tree) == EResult(tree, s4);
    assert InfixLoop(s0, Lowest, Var(a)) == EResult(tree, s4);
    assert ParsePrefix(s0) == EResult(Var(a), s0);
  }

  /**
   * "a o1 b o2 c" for any two binary operators parses without errors into one statement whose
   * tree groups to the left exactly when o1's precedence is at least o2's: operators of equal
   * precedence associate to the left and a tighter operator on the right takes b as its operand.
   */
  lemma {:induction false} ChainParses(a: string, o1: Token, b: string, o2: Token, c: string)
    requires BinaryOperator(o1.kind) && BinaryOperator(o2.kind)
    ensures WellFormedTokens(Chain(a, o1, b, o2, c))
    ensures ParseProgramSpec(Chain(a, o1, b, o2, c), false) == Some(([ExprStmt(Id(a), ChainTree(a, o1, b, o2, c))], []))
  {
    if Precedence(o1.kind) >= Precedence(o2.kind) {
      ChainLeft(a, o1, b, o2, c);
    } else {
      ChainRight(a, o1, b, o2, c);
    }
    var t := Chain(a, o1, b, o2, c);
    var tree := ChainTree(a, o1, b, o2, c);
    var s0, s4, s5 := At(t, 0), At(t, 4), At(t, 5);
    assert Peek(s4) == Eof && SkipSemicolon(s4) == s4;
    assert ParseStatement(s0) == SResult(Some(ExprStmt(Id(a), tree)), s4);
    assert Advance(s4) == s5 && Cur(s5) == Eof;
    assert Statements(s5, [ExprStmt(Id(a), tree)], false) == BResult([ExprStmt(Id(a), tree)], s5);
    assert Statements(s0, [], false) == BResult([ExprStmt(Id(a), tree)], s5);
  }


  /** ChainParses when o1 binds at least as tightly, with the tree written out. */
  lemma {:induction false} ChainParsesLeft(a: string, o1: Token, b: string, o2: Token, c: string)
    requires BinaryOperator(o1.kind) && BinaryOperator(o2.kind)
    requires Precedence(o1.kind) >= Precedence(o2.kind)
    ensures WellFormedTokens(Chain(a, o1, b, o2, c))
    ensures ParseProgramSpec(Chain(a, o1, b, o2, c), false)
            == Some(([ExprStmt(Id(a), InfixExpr(o2, InfixExpr(o1, Var(a), o1.literal, Var(b)), o2.literal, Var(c)))], []))
  {
    ChainParses(a, o1, b, o2, c);
  }

  /** ChainParses when o2 binds tighter, with the tree written out. */
  lemma {:induction false} ChainParsesRight(a: string, o1: Token, b: string, o2: Token, c: string)
    requires BinaryOperator(o1.kind) && BinaryOperator(o2.kind)
    requires Precedence(o1.kind) < Precedence(o2.kind)
    ensures WellFormedTokens(Chain(a, o1, b, o2, c))
    ensures ParseProgramSpec(Chain(a, o1, b, o2, c), false)
            == Some(([ExprStmt(Id(a), InfixExpr(o1, Var(a), o1.literal, InfixExpr(o2, Var(b), o2.literal, Var(c))))], []))
  {
    ChainParses(a, o1, b, o2, c);
  }

  /** The tokens of "a + b + c". */
  const SumChain: seq<Token> := Chain("a", PlusTok, "b", PlusTok, "c")
  const SumLeft: Expr := InfixExpr(PlusTok, InfixExpr(PlusTok, Var("a"), "+", Var("b")), "+", Var("c"))

  /** The test "a + b + c" parses left-nested; SumLeftPrints gives "((a + b) + c);\n". */
  lemma {:induction false} SumChainParses()
    ensures WellFormedTokens(SumChain)
    ensures ParseProgramSpec(SumChain, false) == Some(([ExprStmt(Id("a"), SumLeft)], []))
  {
    ChainParsesLeft("a", PlusTok, "b", PlusTok, "c");
  }

  /** The tokens of "a + b / c". */
  const QuotientChain: seq<Token> := Chain("a", PlusTok, "b", SlashTok, "c")
  const SumQuotient: Expr := InfixExpr(PlusTok, Var("a"), "+", InfixExpr(SlashTok, Var("b"), "/", Var("c")))

  /** The test "a + b / c" parses right-nested; SumQuotientPrints gives "(a + (b / c));\n". */
  lemma {:induction false} QuotientChainParses()
    ensures WellFormedTokens(QuotientChain)
    ensures ParseProgramSpec(QuotientChain, false) == Some(([ExprStmt(Id("a"), SumQuotient)], []))
  {
    ChainParsesRight("a", PlusTok, "b", SlashTok, "c");
  }

  // ---------------------------------------------------------------- printing

  /** A statement holding one printable expression prints as that expression, then ";\n". */
  lemma {:induction false} StmtPrints(t: Token, e: Expr)
    requires Printable(e, false)
    ensures BlockPrintable([ExprStmt(t, e)], false)
    ensures ProgramStr([ExprStmt(t, e)], false) == ExprStr(e, false) + ";\n"
  {
    BlockStrSingle(ExprStmt(t, e), false);
  }

  /** ((p a) o b) over one-character names and operators, printed. */
  lemma {:induction false} PrefixLeftStr(kp: TokenType, p: char, a: char, k: TokenType, o: char, b: char)
    ensures var tree := InfixExpr(Token(k, [o]), PrefixExpr(Token(kp, [p]), [p], Var([a])), [o], Var([b]));
      Printable(tree, false)
      && ExprStr(tree, false) + ";\n" == ['(', '(', p, a, ')', ' ', o, ' ', b, ')', ';', '\n']
  {
    var tree := InfixExpr(Token(k, [o]), PrefixExpr(Token(kp, [p]), [p], Var([a])), [o], Var([b]));
    assert Printable(Var([a]), false) && Printable(Var([b]), false);
    assert ExprStr(PrefixExpr(Token(kp, [p]), [p], Var([a])), false) == "(" + [p] + [a] + ")";
    var whole := "(" + ("(" + [p] + [a] + ")") + " " + [o] + " " + [b] + ")" + ";\n";
    assert ExprStr(tree, false) + ";\n" == whole;
    assert forall i | 0 <= i < 12 :: whole[i] == ['(', '(', p, a, ')', ' ', o, ' ', b, ')', ';', '\n'][i];
  }

  /** ((a o1 b) o2 c) over one-character names and operators, printed. */
  lemma {:induction false} LeftNestedStr(a: char, k1: TokenType, o1: char, b: char, k2: TokenType, o2: char, c: char)
    ensures var tree := InfixExpr(Token(k2, [o2]), InfixExpr(Token(k1, [o1]), Var([a]), [o1], Var([b])), [o2], Var([c]));
      Printable(tree, false)
      && ExprStr(tree, false) + ";\n" == ['(', '(', a, ' ', o1, ' ', b, ')', ' ', o2, ' ', c, ')', ';', '\n']
  {
    var tree := InfixExpr(Token(k2, [o2]), InfixExpr(Token(k1, [o1]), Var([a]), [o1], Var([b])), [o2], Var([c]));
    assert Printable(Var([a]), false) && Printable(Var([b]), false) && Printable(Var([c]), false);
    assert ExprStr(InfixExpr(Token(k1, [o1]), Var([a]), [o1], Var([b])), false) == "(" + [a] + " " + [o1] + " " + [b] + ")";
    var whole := "(" + ("(" + [a] + " " + [o1] + " " + [b] + ")") + " " + [o2] + " " + [c] + ")" + ";\n";
    assert ExprStr(tree, false) + ";\n" == whole;
    assert forall i | 0 <= i < 15 :: whole[i] == ['(', '(', a, ' ', o1, ' ', b, ')', ' ', o2, ' ', c, ')', ';', '\n'][i];
  }

  /** (a o1 (b o2 c)) over one-character names and operators, printed. */
  lemma {:induction false} RightNestedStr(a: char, k1: TokenType, o1: char, b: char, k2: TokenType, o2: char, c: char)
    ensures var tree := InfixExpr(Token(k1, [o1]), Var([a]), [o1], InfixExpr(Token(k2, [o2]), Var([b]), [o2], Var([c])));
      Printable(tree, false)
      && ExprStr(tree, false) + ";\n" == ['(', a, ' ', o1, ' ', '(', b, ' ', o2, ' ', c, ')', ')', ';', '\n']
  {
    var tree := InfixExpr(Token(k1, [o1]), Var([a]), [o1], InfixExpr(Token(k2, [o2]), Var([b]), [o2], Var([c])));
    assert Printable(Var([a]), false) && Printable(Var([b]), false) && Printable(Var([c]), false);
    assert ExprStr(InfixExpr(Token(k2, [o2]), Var([b]), [o2], Var([c])), false) == "(" + [b] + " " + [o2] + " " + [c] + ")";
    var whole := "(" + [a] + " " + [o1] + " " + ("(" + [b] + " " + [o2] + " " + [c] + ")") + ")" + ";\n";
    assert ExprStr(tree, false) + ";\n" == whole;
    assert forall i | 0 <= i < 15 :: whole[i] == ['(', a, ' ', o1, ' ', '(', b, ' ', o2, ' ', c, ')', ')', ';', '\n'][i];
  }

  /** ... and "-a * b" prints as "((-a) * b);\n". */
  lemma {:induction false} NegTimesPrints()
    ensures BlockPrintable([ExprStmt(MinusTok, NegTimesTree)], false)
    ensures ProgramStr([ExprStmt(MinusTok, NegTimesTree)], false) == "((-a) * b);\n"
  {
    PrefixLeftStr(Minus, '-', 'a', Asterisk, '*', 'b');
    StmtPrints(MinusTok, NegTimesTree);
  }

  lemma {:induction false} SumLeftPrints()
    ensures BlockPrintable([ExprStmt(Id("a"), SumLeft)], false)
    ensures ProgramStr([ExprStmt(Id("a"), SumLeft)], false) == "((a + b) + c);\n"
  {
    LeftNestedStr('a', Plus, '+', 'b', Plus, '+', 'c');
    StmtPrints(Id("a"), SumLeft);
  }

  lemma {:induction false} SumQuotientPrints()
    ensures BlockPrintable([ExprStmt(Id("a"), SumQuotient)], false)
    ensures ProgramStr([ExprStmt(Id("a"), SumQuotient)], false) == "(a + (b / c));\n"
  {
    RightNestedStr('a', Plus, '+', 'b', Slash, '/', 'c');
    StmtPrints(Id("a"), SumQuotient);
  }

  // ---------------------------------------------------------------- loops

  /** The tokens of a lone `break` or `continue`, spelt lit. */
  function LoneControl(k: TokenType, lit: string): seq<Token>
  {
    [Token(k, lit), Eof]
  }

  /** A lone `break` or `continue` parsed from a fresh parser with INSIDE_LOOP as given. */
  lemma {:induction false} LoneControlPositions(k: TokenType, lit: string, inside: bool)
    requires k == Break || k == Continue
    ensures var t := LoneControl(k, lit);
      WellFormedTokens(t)
      && Cur(PState(t, 0, [], inside, false)) == Token(k, lit)
      && Peek(PState(t, 0, [], inside, false)) == Eof
      && Advance(PState(t, 0, [], inside, false)) == PState(t, 1, [], inside, false)
  {
  }

  /** Outside a loop body a lone `break` or `continue` is one error and no statement. */
  lemma {:induction false} LoneControlOutside(k: TokenType, lit: string)
    requires k == Break || k == Continue
    ensures WellFormedTokens(LoneControl(k, lit))
    ensures ParseProgramSpec(LoneControl(k, lit), false) == Some(([], [IllegalMessage(k)]))
  {
    LoneControlPositions(k, lit, false);
    var t := LoneControl(k, lit);
    var s := At(t, 0);
    var e := PState(t, 1, [IllegalMessage(k)], false, false);
    assert ParseStatement(s) == SResult(None, AddError(s, IllegalMessage(k)));
    assert Advance(AddError(s, IllegalMessage(k))) == e;
    StatementsDone(e, []);
    StatementsStep(s, []);
    assert Statements(s, [], false) == BResult([], e);
    assert ParseProgramSpec(t, false) == Some(([], e.errors));
  }

  /** With INSIDE_LOOP set a lone `break` or `continue` is the statement, ending the line. */
  lemma {:induction false} LoneControlStatement(k: TokenType, lit: string)
    requires k == Break || k == Continue
    ensures WellFormedTokens(LoneControl(k, lit))
    ensures var t := LoneControl(k, lit);
      ParseStatement(PState(t, 0, [], true, false))
      == SResult(Some(if k == Break then BreakStmt(Token(k, lit)) else ContinueStmt(Token(k, lit))), PState(t, 1, [], true, false))
  {
    LoneControlPositions(k, lit, true);
    var t := LoneControl(k, lit);
    var u := PState(t, 1, [], true, false);
    assert Peek(u) == Eof && SkipSemicolon(u) == u;
  }

  /** With INSIDE_LOOP set (as inside a loop body) it is the one statement, without errors. */
  lemma {:induction false} LoneControlInside(k: TokenType, lit: string)
    requires k == Break || k == Continue
    ensures WellFormedTokens(LoneControl(k, lit))
    ensures ParseProgramSpec(LoneControl(k, lit), true)
            == Some(([if k == Break then BreakStmt(Token(k, lit)) else ContinueStmt(Token(k, lit))], []))
  {
    LoneControlStatement(k, lit);
    var t := LoneControl(k, lit);
    var st := if k == Break then BreakStmt(Token(k, lit)) else ContinueStmt(Token(k, lit));
    var s := PState(t, 0, [], true, false);
    var u := PState(t, 1, [], true, false);
    assert Advance(u) == u && Cur(u) == Eof;
    StatementsDone(u, [st]);
    StatementsStep(s, []);
    assert Statements(s, [], false) == BResult([st], u);
    assert ParseProgramSpec(t, true) == Some(([st], u.errors));
  }

  const BreakTok := Token(Break, "break")

  /** The tokens of "break". */
  const LoneBreak: seq<Token> := LoneControl(Break, "break")

  lemma {:induction false} BreakMessage()
    ensures IllegalMessage(Break) == "Illegal break statement"
  {
    var m := "Illegal " + "break" + " statement";
    assert |m| == 23;
    assert forall k | 0 <= k < 23 :: m[k] == "Illegal break statement"[k];
  }

  /** A `break` outside a loop body is an error and no statement. */
  lemma {:induction false} BreakOutsideLoop()
    ensures WellFormedTokens(LoneBreak)
    ensures ParseProgramSpec(LoneBreak, false) == Some(([], [IllegalMessage(Break)]))
  {
    LoneControlOutside(Break, "break");
  }

  /** With INSIDE_LOOP set the same `break` is a break statement. */
  lemma {:induction false} BreakInsideLoop()
    ensures WellFormedTokens(LoneBreak)
    ensures ParseProgramSpec(LoneBreak, true) == Some(([BreakStmt(BreakTok)], []))
  {
    LoneControlInside(Break, "break");
  }

  /** The tokens of "for (;;) { }", with the keyword spelt kw. */
  function EndlessFor(kw: string): seq<Token>
  {
    [Token(For, kw), Token(LParen, "("), Token(Semicolon, ";"), Token(Semicolon, ";"),
     Token(RParen, ")"), Token(LBrace, "{"), Token(RBrace, "}"), Eof]
  }

  /** The state of parse_for_loop at position i, with INSIDE_LOOP set. */
  function InFor(kw: string, i: nat): PState
  {
    PState(EndlessFor(kw), i, [], true, false)
  }

  lemma {:induction false} EndlessForWellFormed(kw: string)
    ensures WellFormedTokens(EndlessFor(kw))
  {
    assert forall i | 0 <= i < 7 :: EndlessFor(kw)[i].kind != EndOfFile;
  }

  /** `(`, then two absent clauses. */
  lemma {:induction false} EndlessForHeader(kw: string)
    ensures Wf(At(EndlessFor(kw), 0))
    ensures Expected(At(EndlessFor(kw), 0).(insideLoop := true), LParen) == (true, InFor(kw, 1))
    ensures ParseClause(InFor(kw, 1)) == (NoClause, InFor(kw, 2))
    ensures ParseClause(InFor(kw, 2)) == (NoClause, InFor(kw, 3))
  {
    EndlessForWellFormed(kw);
  }

  /** An absent update, `)` and `{`. */
  lemma {:induction false} EndlessForUpdate(kw: string)
    ensures Wf(At(EndlessFor(kw), 3))
    ensures ForUpdate(InFor(kw, 3)) == (NoClause, InFor(kw, 4))
    ensures Expected(InFor(kw, 4), LBrace) == (true, InFor(kw, 5))
  {
    EndlessForWellFormed(kw);
  }

  /** An empty body. */
  lemma {:induction false} EndlessForBody(kw: string)
    ensures Wf(At(EndlessFor(kw), 5))
    ensures ParseBlock(InFor(kw, 5)) == BResult([], InFor(kw, 6))
  {
    EndlessForWellFormed(kw);
    assert Advance(InFor(kw, 5)) == InFor(kw, 6) && Cur(InFor(kw, 6)).kind == RBrace;
    assert Statements(InFor(kw, 6), [], true) == BResult([], InFor(kw, 6));
  }

  const EndlessLoop: Expr := ForLoop(NoClause, Nil, NoClause, [])

  lemma {:induction false} EndlessForRest(kw: string)
    ensures Wf(At(EndlessFor(kw), 3))
    ensures ForRest(InFor(kw, 3), NoClause, Nil) == EResult(EndlessLoop, InFor(kw, 6))
  {
    EndlessForUpdate(kw);
    EndlessForBody(kw);
  }

  /** The for loop ends at its `}` with INSIDE_LOOP clear again. */
  lemma {:induction false} EndlessForLoop(kw: string)
    ensures Wf(At(EndlessFor(kw), 0))
    ensures ParseFor(At(EndlessFor(kw), 0)) == EResult(EndlessLoop, At(EndlessFor(kw), 6))
  {
    EndlessForHeader(kw);
    EndlessForRest(kw);
    assert ForHeader(InFor(kw, 1)) == EResult(EndlessLoop, InFor(kw, 6));
  }

  lemma {:induction false} EndlessForStatement(kw: string)
    ensures Wf(At(EndlessFor(kw), 0))
    ensures ParseStatement(At(EndlessFor(kw), 0)) == SResult(Some(ExprStmt(Token(For, kw), EndlessLoop)), At(EndlessFor(kw), 6))
  {
    EndlessForLoop(kw);
    var s0, s6 := At(EndlessFor(kw), 0), At(EndlessFor(kw), 6);
    assert Cur(s0).kind == For && Peek(s6) == Eof;
    assert ParsePrefix(s0) == EResult(EndlessLoop, s6);
    assert InfixLoop(s6, Lowest, EndlessLoop) == EResult(EndlessLoop, s6);
    assert ParseExpression(s0, Lowest) == EResult(EndlessLoop, s6);
  }

  /** "for (;;) { }": no initialization, condition or update, an empty body, no errors, and INSIDE_LOOP clear afterwards. */
  lemma {:induction false} EndlessForParses()
    ensures WellFormedTokens(EndlessFor("for"))
    ensures ParseProgramSpec(EndlessFor("for"), false) == Some(([ExprStmt(Token(For, "for"), EndlessLoop)], []))
  {
    EndlessForStatementProgram("for");
  }

  /** The program of "for (;;) { }" for any spelling of the keyword. */
  lemma {:induction false} EndlessForStatementProgram(kw: string)
    ensures WellFormedTokens(EndlessFor(kw))
    ensures ParseProgramSpec(EndlessFor(kw), false) == Some(([ExprStmt(Token(For, kw), EndlessLoop)], []))
  {
    EndlessForStatement(kw);
    var s6, s7 := At(EndlessFor(kw), 6), At(EndlessFor(kw), 7);
    assert Advance(s6) == s7 && Cur(s7) == Eof;
    assert Statements(s7, [ExprStmt(Token(For, kw), EndlessLoop)], false) == BResult([ExprStmt(Token(For, kw), EndlessLoop)], s7);
    assert Statements(At(EndlessFor(kw), 0), [], false) == BResult([ExprStmt(Token(For, kw), EndlessLoop)], s7);
  }

  // ---------------------------------------------------------------- a parameter list without its `)`

  /** The tokens of "fn(a b) {}". */
  const BadParamsTokens := [Token(Function, "fn"), Token(LParen, "("), Id("a"), Id("b"), Token(RParen, ")"),
                            Token(LBrace, "{"), Token(RBrace, "}"), Eof]

  /** The state after the failed parameter list of "fn(a b) {}": at `a`, one error about `)`. */
  function BadParamsState(): PState
  {
    PState(BadParamsTokens, 2, [PeekErrorMessage(RParen, Ident)], false, false)
  }

  /** The parameter list "(a b)" fails at `b` with one error. */
  lemma {:induction false} BadParamsList()
    ensures WellFormedTokens(BadParamsTokens)
    ensures ParseParameters(At(BadParamsTokens, 1)) == (None, BadParamsState())
  {
    var t := BadParamsTokens;
    assert WellFormedTokens(t);
    assert Peek(At(t, 1)).kind == Ident && Advance(At(t, 1)) == At(t, 2);
    assert Cur(At(t, 2)) == Id("a") && Peek(At(t, 2)).kind == Ident;
    assert ParamsLoop(At(t, 2), [NewIdentifier(Id("a"), "a").value]) == ([NewIdentifier(Id("a"), "a").value], At(t, 2));
    var m := PeekErrorMessage(RParen, Ident);
    assert [] + [m] == [m];
    assert AddError(At(t, 2), m) == BadParamsState();
    assert Expected(At(t, 2), RParen) == (false, BadParamsState());
  }

  /** "fn(a b) {}" gives no expression, after the one error about `)`. */
  lemma {:induction false} BadParamsParse()
    ensures WellFormedTokens(BadParamsTokens)
    ensures ParseFunction(At(BadParamsTokens, 0)) == EResult(Nil, BadParamsState())
  {
    var t := BadParamsTokens;
    BadParamsList();
    assert Expected(At(t, 0), LParen) == (true, At(t, 1));
  }

  /**
   * "fn(a b) {}" as written: instead of returning NULL after the error about `)`,
   * parse_function_literal goes on, records a second error about `{` and aborts in array_free.
   */
  lemma {:induction false} BadParamsAsWritten()
    ensures WellFormedTokens(BadParamsTokens)
    ensures AfterBadParamsAsWritten(BadParamsState())
         == (Aborted, PState(BadParamsTokens, 2, [PeekErrorMessage(RParen, Ident), PeekErrorMessage(LBrace, Ident)], false, true))
  {
    assert WellFormedTokens(BadParamsTokens);
    assert Peek(BadParamsState()).kind == Ident;
    var m1, m2 := PeekErrorMessage(RParen, Ident), PeekErrorMessage(LBrace, Ident);
    assert [m1] + [m2] == [m1, m2];
  }
}
