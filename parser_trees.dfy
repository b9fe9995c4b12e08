// The trees the parser builds (src/parser/parser.c), construct by construct and for every token
// stream: the node a construct yields when its tokens are present, and the one error it records
// when an expected token is missing. The parse functions' own contracts say only how they move
// through the tokens; the lemmas here say what they build.

module ParserTrees {
  import opened Wrappers
  import opened Token
  import opened Ast
  import opened Parser
  import Seqs

  // ---------------------------------------------------------------- statements

  /**
   * `let` IDENT `=` value: a let statement named by the identifier, holding the value parsed at
   * LOWEST from the token after `=`. A missing identifier or `=` records one error and gives NULL.
   */
  lemma LetBuilds(s: PState)
    requires Wf(s) && Cur(s).kind == Let
    ensures Peek(s).kind != Ident ==>
      ParseLet(s) == SResult(None, AddError(s, PeekErrorMessage(Ident, Peek(s).kind)))
    ensures Peek(s).kind == Ident && Peek(Advance(s)).kind != Assign ==>
      ParseLet(s) == SResult(None, AddError(Advance(s), PeekErrorMessage(Assign, Peek(Advance(s)).kind)))
    ensures Peek(s).kind == Ident && Peek(Advance(s)).kind == Assign ==>
      var value := ParseExpression(Advance(Advance(Advance(s))), Lowest);
      ParseLet(s) == SResult(Some(LetStmt(Cur(s), Peek(s).literal, value.e)), SkipSemicolon(Advance(value.s)))
  {
  }

  /** `return` value: a return statement holding the value parsed at LOWEST; it is never NULL. */
  lemma ReturnBuilds(s: PState)
    requires Wf(s) && Cur(s).kind == Return
    ensures var value := ParseExpression(Advance(s), Lowest);
      ParseReturn(s) == SResult(Some(ReturnStmt(Cur(s), value.e)), SkipSemicolon(Advance(value.s)))
      && ParseReturn(s).s.errors == value.s.errors
  {
  }

  /**
   * Any other statement wraps the expression that starts at the current token, and is never NULL;
   * a token with no prefix parse function gives a statement holding NULL and one error.
   */
  lemma ExpressionStatementBuilds(s: PState)
    requires Wf(s)
    ensures var value := ParseExpression(s, Lowest);
      ParseExpressionStatement(s) == SResult(Some(ExprStmt(Cur(s), value.e)), SkipSemicolon(value.s))
    ensures !HasPrefix(Cur(s).kind) ==>
      ParseExpressionStatement(s).st == Some(ExprStmt(Cur(s), Nil))
      && ParseExpressionStatement(s).s.errors == s.errors + [NoPrefixMessage(Cur(s).kind)]
  {
  }

  /** A statement that does not abort leaves the parser past the token it started at, once advanced. */
  lemma StatementMoves(s: PState)
    requires Wf(s) && Cur(s).kind != EndOfFile && !ParseStatement(s).s.crashed
    ensures Advance(ParseStatement(s).s).pos > s.pos
  {
    var st := ParseStatement(s);
    if st.s.pos == s.pos {
      assert Cur(st.s) == Cur(s);
    }
  }

  /** The statement loops stop at END_OF_FILE, or at `}` inside a block, with what they have kept. */
  lemma StatementsStop(s: PState, acc: seq<Stmt>, inBlock: bool)
    requires Wf(s) && (Cur(s).kind == EndOfFile || (inBlock && Cur(s).kind == RBrace))
    ensures Statements(s, acc, inBlock) == BResult(acc, s)
  {
  }

  /** An assert that aborts inside a statement ends the statement loops with what they have kept. */
  lemma StatementsAbort(s: PState, acc: seq<Stmt>, inBlock: bool)
    requires Wf(s) && !(Cur(s).kind == EndOfFile || (inBlock && Cur(s).kind == RBrace))
    requires ParseStatement(s).s.crashed
    ensures Statements(s, acc, inBlock) == BResult(acc, ParseStatement(s).s)
  {
  }

  /** One turn of the statement loops: the statement, kept unless NULL, then the loop from the next token. */
  lemma StatementsUnfold(s: PState, acc: seq<Stmt>, inBlock: bool, one: seq<Stmt>)
    requires Wf(s) && !(Cur(s).kind == EndOfFile || (inBlock && Cur(s).kind == RBrace))
    requires !ParseStatement(s).s.crashed
    requires one == if ParseStatement(s).st.Some? then [ParseStatement(s).st.value] else []
    ensures Statements(s, acc, inBlock) == Statements(Advance(ParseStatement(s).s), acc + one, inBlock)
  {
    assert acc + [] == acc;
  }

  /** The statement loops keep what they were given in front of what they go on to parse. */
  lemma {:induction false} StatementsFrom(s: PState, acc: seq<Stmt>, inBlock: bool)
    requires Wf(s)
    ensures Statements(s, acc, inBlock) == BResult(acc + Statements(s, [], inBlock).stmts, Statements(s, [], inBlock).s)
    decreases |s.toks| - s.pos
  {
    if Cur(s).kind == EndOfFile || (inBlock && Cur(s).kind == RBrace) {
      StatementsStop(s, acc, inBlock);
      StatementsStop(s, [], inBlock);
      assert acc + [] == acc;
    } else if ParseStatement(s).s.crashed {
      StatementsAbort(s, acc, inBlock);
      StatementsAbort(s, [], inBlock);
      assert acc + [] == acc;
    } else {
      var st := ParseStatement(s);
      var next := Advance(st.s);
      var one := if st.st.Some? then [st.st.value] else [];
      StatementMoves(s);
      StatementsUnfold(s, acc, inBlock, one);
      StatementsUnfold(s, [], inBlock, one);
      assert [] + one == one;
      StatementsFrom(next, acc + one, inBlock);
      StatementsFrom(next, one, inBlock);
      var rest := Statements(next, [], inBlock);
      Seqs.AppendAssoc(acc, one, rest.stmts);
    }
  }

  /** `{` `}`: an empty block, left at the `}`. */
  lemma EmptyBlockBuilds(s: PState)
    requires Wf(s) && Peek(s).kind == RBrace
    ensures ParseBlock(s) == BResult([], Advance(s))
  {
  }

  /**
   * A block is its first statement (left out when NULL) followed by the block that starts where
   * that statement ended; an assert that aborts inside the first statement ends the block empty.
   */
  lemma BlockBuilds(s: PState)
    requires Wf(s) && Peek(s).kind != RBrace && Peek(s).kind != EndOfFile
    ensures var st := ParseStatement(Advance(s));
      st.s.crashed ==> ParseBlock(s) == BResult([], st.s)
    ensures var st := ParseStatement(Advance(s));
      !st.s.crashed ==> ParseBlock(s) == BResult((if st.st.Some? then [st.st.value] else []) + ParseBlock(st.s).stmts, ParseBlock(st.s).s)
  {
    var s1 := Advance(s);
    var st := ParseStatement(s1);
    if !st.s.crashed {
      var one := if st.st.Some? then [st.st.value] else [];
      assert [] + one == one;
      assert ParseBlock(s) == Statements(Advance(st.s), one, true);
      StatementsFrom(Advance(st.s), one, true);
    }
  }

  /** A block of one statement that the `}` follows. */
  lemma BlockOfOneBuilds(s: PState)
    requires Wf(s) && Peek(s).kind != RBrace && Peek(s).kind != EndOfFile
    requires var st := ParseStatement(Advance(s)); !st.s.crashed && st.st.Some? && Peek(st.s).kind == RBrace
    ensures var st := ParseStatement(Advance(s)); ParseBlock(s) == BResult([st.st.value], Advance(st.s))
  {
    BlockBuilds(s);
    EmptyBlockBuilds(ParseStatement(Advance(s)).s);
  }

  // ---------------------------------------------------------------- prefix expressions

  /** The leaves: an identifier, a boolean, a string or a decimal number is its own token, with no token consumed. */
  lemma PrefixLeaves(s: PState)
    requires Wf(s)
    ensures Cur(s).kind == Ident ==> ParsePrefix(s) == EResult(Identifier(Cur(s), Cur(s).literal), s)
    ensures Cur(s).kind == True ==> ParsePrefix(s) == EResult(BooleanLiteral(Cur(s), true), s)
    ensures Cur(s).kind == False ==> ParsePrefix(s) == EResult(BooleanLiteral(Cur(s), false), s)
    ensures Cur(s).kind == Str ==> ParsePrefix(s) == EResult(StringLiteral(Cur(s), Cur(s).literal), s)
    ensures Cur(s).kind == Number ==> ParsePrefix(s) == EResult(NumberLiteral(Cur(s), DecimalValue(Cur(s).literal)), s)
  {
  }

  /**
   * `!` and `-` build a prefix node over the operand parsed at PREFIX precedence, so the operand
   * ends before any binary operator.
   */
  lemma PrefixExpressionBuilds(s: PState)
    requires Wf(s) && (Cur(s).kind == Bang || Cur(s).kind == Minus)
    ensures var right := ParseExpression(Advance(s), PrefixPrec);
      ParsePrefixExpression(s) == EResult(PrefixExpr(Cur(s), Cur(s).literal, right.e), right.s)
    ensures HasPrefix(Peek(s).kind) ==> Settled(ParsePrefixExpression(s).s, PrefixPrec)
  {
  }

  /** `(` e `)` is e itself, with no node for the parentheses; a missing `)` records one error and gives NULL. */
  lemma GroupedBuilds(s: PState)
    requires Wf(s) && Cur(s).kind == LParen
    ensures var inner := ParseExpression(Advance(s), Lowest);
      Peek(inner.s).kind == RParen ==> ParseGrouped(s) == EResult(inner.e, Advance(inner.s))
    ensures var inner := ParseExpression(Advance(s), Lowest);
      Peek(inner.s).kind != RParen ==> ParseGrouped(s) == EResult(Nil, AddError(inner.s, PeekErrorMessage(RParen, Peek(inner.s).kind)))
  {
  }

  /** `if` without `(` records one error and gives NULL; otherwise the condition is parsed at LOWEST from the token after `(`. */
  lemma IfBuilds(s: PState)
    requires Wf(s) && Cur(s).kind == If
    ensures Peek(s).kind != LParen ==> ParseIf(s) == EResult(Nil, AddError(s, PeekErrorMessage(LParen, Peek(s).kind)))
    ensures Peek(s).kind == LParen ==>
      var cond := ParseExpression(Advance(Advance(s)), Lowest);
      ParseIf(s) == IfBlocks(cond.s, cond.e)
  {
  }

  /**
   * After the condition: a missing `)` or `{` records one error and gives NULL; otherwise the
   * consequence block comes next.
   */
  lemma IfBlocksBuild(s: PState, cond: Expr)
    requires Wf(s)
    ensures Peek(s).kind != RParen ==> IfBlocks(s, cond) == EResult(Nil, AddError(s, PeekErrorMessage(RParen, Peek(s).kind)))
    ensures Peek(s).kind == RParen && Peek(Advance(s)).kind != LBrace ==>
      IfBlocks(s, cond) == EResult(Nil, AddError(Advance(s), PeekErrorMessage(LBrace, Peek(Advance(s)).kind)))
    ensures Peek(s).kind == RParen && Peek(Advance(s)).kind == LBrace ==>
      var cons := ParseBlock(Advance(Advance(s)));
      IfBlocks(s, cond) == IfAlternative(cons.s, cond, cons.stmts)
  {
  }

  /**
   * After the consequence: an if node without an alternative unless `else` follows; after `else`,
   * `{` alternative `}` gives the alternative block, and a missing `{` records one error and gives NULL.
   */
  lemma AlternativeBuilds(s: PState, cond: Expr, cons: seq<Stmt>)
    requires Wf(s)
    ensures Peek(s).kind != Else ==> IfAlternative(s, cond, cons) == EResult(IfExpr(cond, cons, NoElse), s)
    ensures Peek(s).kind == Else && Peek(Advance(s)).kind != LBrace ==>
      IfAlternative(s, cond, cons) == EResult(Nil, AddError(Advance(s), PeekErrorMessage(LBrace, Peek(Advance(s)).kind)))
    ensures Peek(s).kind == Else && Peek(Advance(s)).kind == LBrace ==>
      var alt := ParseBlock(Advance(Advance(s)));
      IfAlternative(s, cond, cons) == EResult(IfExpr(cond, cons, ElseBlock(alt.stmts)), alt.s)
  {
  }

  /** A field of a node fresh from malloc: Unset until the parser assigns it. */
  datatype Field = Unset | Assigned(block: seq<Stmt>)

  /**
   * The alternative field of the if node as written: parse_if_expression
   * assigns it only after `else` `{`, so without `else` it keeps whatever
   * malloc left there.  On the node it returns, the field is unset exactly
   * where the intended node has no alternative.
   */
  function AlternativeAsWritten(s: PState, cond: Expr, cons: seq<Stmt>): (f: Field)
    requires Wf(s)
    ensures var r := IfAlternative(s, cond, cons);
      r.e.IfExpr? ==> (f.Unset? <==> r.e.alternative.NoElse?) && (f.Assigned? ==> r.e.alternative == ElseBlock(f.block))
  {
    if Peek(s).kind != Else then Unset
    else
      var (ok, s1) := Expected(Advance(s), LBrace);
      if !ok then Unset else Assigned(ParseBlock(s1).stmts)
  }

  /**
   * As written, `if (false) { 10 }` and every other if without `else` is
   * returned with its alternative unset, while the evaluator, the compiler and
   * the printer read the field as NULL.
   */
  lemma IfWithoutElseUnset(s: PState, cond: Expr, cons: seq<Stmt>)
    requires Wf(s) && Peek(s).kind != Else
    ensures IfAlternative(s, cond, cons).e.IfExpr?
    ensures AlternativeAsWritten(s, cond, cons) == Unset
  {
  }

  /**
   * `if` `(` c `)` `{` ... `}` `else` `{` ... `}` with every token in place: an if node over the
   * condition, parsed at LOWEST, and the two blocks, with no error beyond those of its parts.
   */
  lemma IfElseBuilds(s: PState)
    requires Wf(s) && Cur(s).kind == If && Peek(s).kind == LParen
    requires var cond := ParseExpression(Advance(Advance(s)), Lowest);
      Peek(cond.s).kind == RParen && Peek(Advance(cond.s)).kind == LBrace
    requires var cons := ParseBlock(Advance(Advance(ParseExpression(Advance(Advance(s)), Lowest).s)));
      Peek(cons.s).kind == Else && Peek(Advance(cons.s)).kind == LBrace
    ensures var cond := ParseExpression(Advance(Advance(s)), Lowest);
      var cons := ParseBlock(Advance(Advance(cond.s)));
      var alt := ParseBlock(Advance(Advance(cons.s)));
      ParseIf(s) == EResult(IfExpr(cond.e, cons.stmts, ElseBlock(alt.stmts)), alt.s)
  {
    var cond := ParseExpression(Advance(Advance(s)), Lowest);
    var cons := ParseBlock(Advance(Advance(cond.s)));
    IfBuilds(s);
    IfBlocksBuild(cond.s, cond.e);
    AlternativeBuilds(cons.s, cond.e, cons.stmts);
  }

  /**
   * `fn` `(` parameters `)` `{` body `}`: a function literal, whose token is the `(`, holding the
   * parameter names and the body block. A missing `(` or `{` records one error and gives NULL; a
   * parameter list that is not closed gives NULL with the error it recorded.
   */
  lemma FunctionBuilds(s: PState)
    requires Wf(s) && Cur(s).kind == Function
    ensures Peek(s).kind != LParen ==> ParseFunction(s) == EResult(Nil, AddError(s, PeekErrorMessage(LParen, Peek(s).kind)))
    ensures Peek(s).kind == LParen ==>
      var ps := ParseParameters(Advance(s));
      (ps.0.None? ==> ParseFunction(s) == EResult(Nil, ps.1))
      && (ps.0.Some? && Peek(ps.1).kind != LBrace ==>
          ParseFunction(s) == EResult(Nil, AddError(ps.1, PeekErrorMessage(LBrace, Peek(ps.1).kind))))
      && (ps.0.Some? && Peek(ps.1).kind == LBrace ==>
          var body := ParseBlock(Advance(ps.1));
          ParseFunction(s) == EResult(FnLiteral(Peek(s), ps.0.value, body.stmts), body.s))
  {
  }

  // ---------------------------------------------------------------- lists: arrays and call arguments

  /** The `, item` loop keeps what it was given in front of the items it goes on to parse. */
  lemma {:induction false} ListLoopFrom(s: PState, acc: seq<Expr>)
    requires Wf(s)
    ensures ListLoop(s, acc) == LResult(acc + ListLoop(s, []).list, ListLoop(s, []).s)
    decreases |s.toks| - s.pos
  {
    if Peek(s).kind == Comma {
      var item := ParseExpression(Advance(Advance(s)), Lowest);
      assert [] + [item.e] == [item.e];
      ListLoopFrom(item.s, acc + [item.e]);
      ListLoopFrom(item.s, [item.e]);
      Seqs.AppendAssoc(acc, [item.e], ListLoop(item.s, []).list);
    } else {
      assert acc + [] == acc;
    }
  }

  /**
   * The items of the loop: none unless a comma follows; otherwise the expression after the comma,
   * parsed at LOWEST, then the items after that expression.
   */
  lemma ListLoopItems(s: PState)
    requires Wf(s)
    ensures Peek(s).kind != Comma ==> ListLoop(s, []) == LResult([], s)
    ensures Peek(s).kind == Comma ==>
      var item := ParseExpression(Advance(Advance(s)), Lowest);
      ListLoop(s, []) == LResult([item.e] + ListLoop(item.s, []).list, ListLoop(item.s, []).s)
  {
    if Peek(s).kind == Comma {
      var item := ParseExpression(Advance(Advance(s)), Lowest);
      assert [] + [item.e] == [item.e];
      ListLoopFrom(item.s, [item.e]);
    }
  }

  /**
   * A list up to `closer`: empty when the closer comes next; otherwise the first item, parsed at
   * LOWEST, then the comma-separated items, and a missing closer records one error and gives None.
   */
  lemma ListBuilds(s: PState, closer: TokenType) returns (first: EResult, rest: LResult)
    requires Wf(s) && Cur(s).kind != EndOfFile
    ensures first == ParseExpression(Advance(s), Lowest) && rest == ListLoop(first.s, [])
    ensures Peek(s).kind == closer ==> ParseList(s, closer) == (Some([]), Advance(s))
    ensures Peek(s).kind != closer ==>
      ParseList(s, closer)
      == if Peek(rest.s).kind == closer then (Some([first.e] + rest.list), Advance(rest.s))
         else (None, AddError(rest.s, PeekErrorMessage(closer, Peek(rest.s).kind)))
  {
    first := ParseExpression(Advance(s), Lowest);
    rest := ListLoop(first.s, []);
    if Peek(s).kind != closer {
      ListLoopFrom(first.s, [first.e]);
    }
  }

  /**
   * `[` items `]`: an array literal holding the items (none for `[]`), or NULL with one error when
   * the list is not closed by `]`.
   */
  lemma ArrayBuilds(s: PState)
    requires Wf(s) && Cur(s).kind == LBracket
    ensures Peek(s).kind == RBracket ==> ParseArray(s) == EResult(ArrayLiteral(Cur(s), []), Advance(s))
    ensures Peek(s).kind != RBracket ==>
      var first := ParseExpression(Advance(s), Lowest);
      var rest := ListLoop(first.s, []);
      ParseArray(s)
      == if Peek(rest.s).kind == RBracket then EResult(ArrayLiteral(Cur(s), [first.e] + rest.list), Advance(rest.s))
         else EResult(Nil, AddError(rest.s, PeekErrorMessage(RBracket, Peek(rest.s).kind)))
  {
    var first, rest := ListBuilds(s, RBracket);
  }

  // ---------------------------------------------------------------- hash literals

  /** The pairs after `acc`: the loop's result with `acc` put in front of its pairs. */
  function Prepend(acc: seq<(Expr, Expr)>, r: HResult): HResult
  {
    HResult(if r.pairs.Some? then Some(acc + r.pairs.value) else None, r.s)
  }

  /** The pair loop keeps what it was given in front of the pairs it goes on to parse. */
  lemma {:induction false} HashLoopFrom(s: PState, acc: seq<(Expr, Expr)>)
    requires Wf(s) && Cur(s).kind != EndOfFile
    ensures HashLoop(s, acc) == Prepend(acc, HashLoop(s, []))
    decreases |s.toks| - s.pos, 2
  {
    if Peek(s).kind == RBrace {
      assert acc + [] == acc;
    } else {
      var key := ParseExpression(Advance(s), Lowest);
      HashValueFrom(key.s, acc, key.e);
    }
  }

  /** The same after a key. */
  lemma {:induction false} HashValueFrom(s: PState, acc: seq<(Expr, Expr)>, key: Expr)
    requires Wf(s)
    ensures HashValue(s, acc, key) == Prepend(acc, HashValue(s, [], key))
    decreases |s.toks| - s.pos, 1
  {
    var value := HashValueUnfold(s, acc, key);
    var value' := HashValueUnfold(s, [], key);
    if Peek(s).kind == Colon {
      var pair := [(key, value.e)];
      assert [] + pair == pair;
      HashNextFrom(value.s, acc + pair);
      HashNextFrom(value.s, pair);
      PrependTwice(acc, pair, HashNext(value.s, []));
    }
  }

  /** After a key: without `:` one error and None; otherwise the pair goes after the others and the loop goes on after the value. */
  lemma HashValueUnfold(s: PState, acc: seq<(Expr, Expr)>, key: Expr) returns (value: EResult)
    requires Wf(s)
    ensures value == ParseExpression(Advance(Advance(s)), Lowest) && Later(s, value.s)
    ensures Peek(s).kind != Colon ==> HashValue(s, acc, key) == HResult(None, AddError(s, PeekErrorMessage(Colon, Peek(s).kind)))
    ensures Peek(s).kind == Colon ==> HashValue(s, acc, key) == HashNext(value.s, acc + [(key, value.e)])
  {
    value := ParseExpression(Advance(Advance(s)), Lowest);
  }

  /** Putting two runs of pairs in front, one after the other, puts their concatenation in front. */
  lemma PrependTwice(acc: seq<(Expr, Expr)>, more: seq<(Expr, Expr)>, r: HResult)
    ensures Prepend(acc + more, r) == Prepend(acc, Prepend(more, r))
  {
    if r.pairs.Some? {
      Seqs.AppendAssoc(acc, more, r.pairs.value);
    }
  }

  /** The same after a pair. */
  lemma {:induction false} HashNextFrom(s: PState, acc: seq<(Expr, Expr)>)
    requires Wf(s)
    ensures HashNext(s, acc) == Prepend(acc, HashNext(s, []))
    decreases |s.toks| - s.pos, 0
  {
    if Peek(s).kind == RBrace {
      assert acc + [] == acc;
    } else if Peek(s).kind == Comma {
      var s1 := Advance(s);
      assert s1.pos == s.pos + 1;
      HashLoopFrom(s1, acc);
    }
  }

  /**
   * After a key: `:` and a value parsed at LOWEST, then either `}`, which ends the pairs, or `,` and
   * the pairs after it. A missing `:` or `,` records one error and gives None.
   */
  lemma PairBuilds(s: PState, key: Expr) returns (value: EResult)
    requires Wf(s)
    ensures value == ParseExpression(Advance(Advance(s)), Lowest)
    ensures Peek(s).kind != Colon ==> HashValue(s, [], key) == HResult(None, AddError(s, PeekErrorMessage(Colon, Peek(s).kind)))
    ensures Peek(s).kind == Colon && Peek(value.s).kind == RBrace ==>
      HashValue(s, [], key) == HResult(Some([(key, value.e)]), value.s)
    ensures Peek(s).kind == Colon && Peek(value.s).kind == Comma ==>
      HashValue(s, [], key) == Prepend([(key, value.e)], HashLoop(Advance(value.s), []))
    ensures Peek(s).kind == Colon && Peek(value.s).kind !in {RBrace, Comma} ==>
      HashValue(s, [], key) == HResult(None, AddError(value.s, PeekErrorMessage(Comma, Peek(value.s).kind)))
  {
    value := ParseExpression(Advance(Advance(s)), Lowest);
    if Peek(s).kind == Colon {
      var pair := [(key, value.e)];
      assert [] + pair == pair;
      assert HashValue(s, [], key) == HashNext(value.s, pair);
      if Peek(value.s).kind == Comma {
        HashLoopFrom(Advance(value.s), pair);
      }
    }
  }

  /** The pairs of a hash literal: none when `}` comes next, otherwise a key parsed at LOWEST and what follows it. */
  lemma HashPairs(s: PState) returns (key: EResult)
    requires Wf(s) && Cur(s).kind != EndOfFile
    ensures key == ParseExpression(Advance(s), Lowest)
    ensures Peek(s).kind == RBrace ==> HashLoop(s, []) == HResult(Some([]), s)
    ensures Peek(s).kind != RBrace ==> HashLoop(s, []) == HashValue(key.s, [], key.e)
  {
    key := ParseExpression(Advance(s), Lowest);
  }

  /**
   * `{` pairs `}`: a hash literal holding the pairs in source order (none for `{}`), or NULL when a
   * `:`, `,` or the closing `}` is missing.
   */
  lemma HashBuilds(s: PState)
    requires Wf(s) && Cur(s).kind == LBrace
    ensures Peek(s).kind == RBrace ==> ParseHash(s) == EResult(HashLiteral(Cur(s), []), Advance(s))
    ensures HashLoop(s, []).pairs.None? ==> ParseHash(s) == EResult(Nil, HashLoop(s, []).s)
    ensures var pairs := HashLoop(s, []);
      pairs.pairs.Some? ==>
        ParseHash(s)
        == if Peek(pairs.s).kind == RBrace then EResult(HashLiteral(Cur(s), pairs.pairs.value), Advance(pairs.s))
           else EResult(Nil, AddError(pairs.s, PeekErrorMessage(RBrace, Peek(pairs.s).kind)))
  {
  }

  // ---------------------------------------------------------------- loops

  /**
   * From the `(` of a while loop: the condition parsed at LOWEST, then `)` and the body block give
   * a while node; a missing `)` records one error and gives NULL.
   */
  lemma WhileRestBuilds(s: PState, tok: Token) returns (cond: EResult)
    requires Wf(s) && Cur(s).kind == LParen
    ensures cond == ParseExpression(Advance(s), Lowest)
    ensures Peek(cond.s).kind != RParen ==>
      WhileRest(s, tok) == EResult(Nil, AddError(cond.s, PeekErrorMessage(RParen, Peek(cond.s).kind)))
    ensures Peek(cond.s).kind == RParen ==>
      var body := ParseBlock(Advance(Advance(cond.s)));
      WhileRest(s, tok) == EResult(WhileLoop(tok, cond.e, body.stmts), body.s)
  {
    cond := ParseExpression(Advance(s), Lowest);
  }

  /**
   * `while` `(` condition `)` `{` body `}`: a while node over the condition, parsed at LOWEST, and
   * the body, both parsed with INSIDE_LOOP set; on success INSIDE_LOOP is what it was before. A
   * missing `(` or `)` records one error, gives NULL and leaves INSIDE_LOOP set.
   */
  lemma WhileBuilds(s: PState) returns (cond: EResult, body: BResult)
    requires Wf(s) && Cur(s).kind == While
    ensures cond == ParseExpression(Advance(Advance(s.(insideLoop := true))), Lowest)
    ensures body == ParseBlock(Advance(Advance(cond.s)))
    ensures Peek(s).kind != LParen ==>
      ParseWhile(s) == EResult(Nil, AddError(s.(insideLoop := true), PeekErrorMessage(LParen, Peek(s).kind)))
    ensures Peek(s).kind == LParen && Peek(cond.s).kind != RParen ==>
      ParseWhile(s) == EResult(Nil, AddError(cond.s, PeekErrorMessage(RParen, Peek(cond.s).kind)))
    ensures Peek(s).kind == LParen && Peek(cond.s).kind == RParen ==>
      ParseWhile(s) == EResult(WhileLoop(Cur(s), cond.e, body.stmts), body.s.(insideLoop := s.insideLoop))
  {
    var s1 := Advance(s.(insideLoop := true));
    cond := ParseExpression(Advance(s1), Lowest);
    body := ParseBlock(Advance(Advance(cond.s)));
    WhileStart(s);
    if Peek(s).kind == LParen {
      var c := WhileRestBuilds(s1, Cur(s));
      if Peek(cond.s).kind == RParen {
        assert body.s.insideLoop;
      }
    }
  }

  /** parse_while_loop sets INSIDE_LOOP before `(` and clears it after a loop it has built, if it set it. */
  lemma WhileStart(s: PState)
    requires Wf(s) && Cur(s).kind == While
    ensures Peek(s).kind != LParen ==>
      ParseWhile(s) == EResult(Nil, AddError(s.(insideLoop := true), PeekErrorMessage(LParen, Peek(s).kind)))
    ensures Peek(s).kind == LParen ==>
      var rest := WhileRest(Advance(s.(insideLoop := true)), Cur(s));
      ParseWhile(s) == EResult(rest.e, if !s.insideLoop && rest.e.WhileLoop? then rest.s.(insideLoop := false) else rest.s)
  {
    var t := s.(insideLoop := true);
    assert Wf(t) && Peek(t) == Peek(s);
    var (ok1, s1) := Expected(t, LParen);
    if ok1 {
      var rest := WhileRest(s1, Cur(s));
      assert ParseWhile(s) == EResult(rest.e, if !s.insideLoop && rest.e.WhileLoop? then rest.s.(insideLoop := false) else rest.s);
    } else {
      assert ParseWhile(s) == EResult(Nil, s1);
    }
  }

  /**
   * From the `(` of a for loop: the update clause, then `{` and the body block give a for node; a
   * missing `{` records one error and gives NULL.
   */
  lemma ForRestBuilds(s: PState, init: Clause, cond: Expr) returns (update: (Clause, PState))
    requires Wf(s)
    ensures update == ForUpdate(s)
    ensures Peek(update.1).kind != LBrace ==>
      ForRest(s, init, cond) == EResult(Nil, AddError(update.1, PeekErrorMessage(LBrace, Peek(update.1).kind)))
    ensures Peek(update.1).kind == LBrace ==>
      var body := ParseBlock(Advance(update.1));
      ForRest(s, init, cond) == EResult(ForLoop(init, cond, update.0, body.stmts), body.s)
  {
    update := ForUpdate(s);
  }

  /**
   * `for` `(` init condition update `)` `{` body `}`: a for node over the two clauses, the
   * expression of the condition clause and the body, all parsed with INSIDE_LOOP set; on success
   * INSIDE_LOOP is what it was before. A missing `(` or `{` records one error and gives NULL.
   */
  lemma ForBuilds(s: PState) returns (init: (Clause, PState), cond: (Clause, PState), update: (Clause, PState))
    requires Wf(s) && Cur(s).kind == For
    ensures init == ParseClause(Advance(s.(insideLoop := true)))
    ensures cond == ParseClause(init.1) && update == ForUpdate(cond.1)
    ensures Peek(s).kind != LParen ==>
      ParseFor(s) == EResult(Nil, AddError(s.(insideLoop := true), PeekErrorMessage(LParen, Peek(s).kind)))
    ensures Peek(s).kind == LParen && Peek(update.1).kind != LBrace ==>
      ParseFor(s) == EResult(Nil, AddError(update.1, PeekErrorMessage(LBrace, Peek(update.1).kind)))
    ensures Peek(s).kind == LParen && Peek(update.1).kind == LBrace ==>
      var body := ParseBlock(Advance(update.1));
      ParseFor(s) == EResult(ForLoop(init.0, StmtExpression(cond.0), update.0, body.stmts), body.s.(insideLoop := s.insideLoop))
  {
    var s1 := Advance(s.(insideLoop := true));
    init := ParseClause(s1);
    cond := ParseClause(init.1);
    update := ForUpdate(cond.1);
    ForStart(s);
    if Peek(s).kind == LParen {
      assert ForHeader(s1) == ForRest(cond.1, init.0, StmtExpression(cond.0));
      var u := ForRestBuilds(cond.1, init.0, StmtExpression(cond.0));
      if Peek(update.1).kind == LBrace {
        assert ParseBlock(Advance(update.1)).s.insideLoop;
      }
    }
  }

  /** parse_for_loop sets INSIDE_LOOP before `(` and clears it after a loop it has built, if it set it. */
  lemma ForStart(s: PState)
    requires Wf(s) && Cur(s).kind == For
    ensures Peek(s).kind != LParen ==>
      ParseFor(s) == EResult(Nil, AddError(s.(insideLoop := true), PeekErrorMessage(LParen, Peek(s).kind)))
    ensures Peek(s).kind == LParen ==>
      var rest := ForHeader(Advance(s.(insideLoop := true)));
      ParseFor(s) == EResult(rest.e, if !s.insideLoop && rest.e.ForLoop? then rest.s.(insideLoop := false) else rest.s)
  {
    var t := s.(insideLoop := true);
    assert Wf(t) && Peek(t) == Peek(s);
    var (ok1, s1) := Expected(t, LParen);
    if ok1 {
      var rest := ForHeader(s1);
      assert ParseFor(s) == EResult(rest.e, if !s.insideLoop && rest.e.ForLoop? then rest.s.(insideLoop := false) else rest.s);
    } else {
      assert ParseFor(s) == EResult(Nil, s1);
    }
  }

  /**
   * A clause of a for header is absent when `;` comes next, or when the current `;` is followed by
   * `)`; otherwise it is the statement that starts at the next token, absent when that is NULL.
   */
  lemma ClauseBuilds(s: PState)
    requires Wf(s)
    ensures Peek(s).kind == Semicolon ==> ParseClause(s) == (NoClause, Advance(s))
    ensures Cur(s).kind == Semicolon && Peek(s).kind == RParen ==> ParseClause(s) == (NoClause, s)
    ensures Peek(s).kind != Semicolon && !(Cur(s).kind == Semicolon && Peek(s).kind == RParen) ==>
      var st := ParseStatement(Advance(s));
      ParseClause(s).0 == (if st.st.Some? then ClauseStmt(st.st.value) else NoClause) && ParseClause(s).1 == st.s
  {
  }

  /**
   * The update clause: absent when `)` comes next; otherwise the statement that starts at the next
   * token, after which a `)` is skipped when present.
   */
  lemma UpdateBuilds(s: PState)
    requires Wf(s)
    ensures Peek(s).kind == RParen ==> ForUpdate(s) == (NoClause, Advance(s))
    ensures Peek(s).kind != RParen ==>
      var st := ParseStatement(Advance(s));
      ForUpdate(s).0 == (if st.st.Some? then ClauseStmt(st.st.value) else NoClause)
      && ForUpdate(s).1 == if Peek(st.s).kind == RParen then Advance(st.s) else st.s
  {
  }

  // ---------------------------------------------------------------- infix expressions

  /**
   * A binary operator builds an infix node over the left operand and the right operand parsed at
   * the operator's own precedence, so the right operand ends before any operator that binds no
   * tighter: operators of equal precedence group to the left.
   */
  lemma BinaryBuilds(s: PState, left: Expr)
    requires Wf(s) && HasInfix(Cur(s).kind) && Cur(s).kind !in {LParen, LBracket, Assign}
    ensures var right := ParseExpression(Advance(s), Precedence(Cur(s).kind));
      ParseInfix(s, left) == EResult(InfixExpr(Cur(s), left, Cur(s).literal, right.e), right.s)
    ensures HasPrefix(Peek(s).kind) ==> Settled(ParseInfix(s, left).s, Precedence(Cur(s).kind))
  {
  }

  /**
   * `(` after an expression: a call of it with the arguments (none for `()`), or NULL with one
   * error when the list is not closed by `)`.
   */
  lemma CallBuilds(s: PState, left: Expr)
    requires Wf(s) && Cur(s).kind == LParen
    ensures Peek(s).kind == RParen ==> ParseInfix(s, left) == EResult(CallExpr(Cur(s), left, []), Advance(s))
    ensures Peek(s).kind != RParen ==>
      var first := ParseExpression(Advance(s), Lowest);
      var rest := ListLoop(first.s, []);
      ParseInfix(s, left)
      == if Peek(rest.s).kind == RParen then EResult(CallExpr(Cur(s), left, [first.e] + rest.list), Advance(rest.s))
         else EResult(Nil, AddError(rest.s, PeekErrorMessage(RParen, Peek(rest.s).kind)))
  {
    var first, rest := ListBuilds(s, RParen);
  }

  /** `[` index `]` after an expression: an index node, or NULL with one error when `]` is missing. */
  lemma IndexBuilds(s: PState, left: Expr)
    requires Wf(s) && Cur(s).kind == LBracket
    ensures var index := ParseExpression(Advance(s), Lowest);
      ParseInfix(s, left)
      == if Peek(index.s).kind == RBracket then EResult(IndexExpr(Cur(s), left, index.e), Advance(index.s))
         else EResult(Nil, AddError(index.s, PeekErrorMessage(RBracket, Peek(index.s).kind)))
  {
    var index := ParseExpression(Advance(s), Lowest);
    var (ok, s1) := Expected(index.s, RBracket);
    assert ParseInfix(s, left) == EResult(if ok then IndexExpr(Cur(s), left, index.e) else Nil, s1);
  }

  /** `=` after a name reassigns it to the value parsed at LOWEST; after anything else the assert aborts. */
  lemma ReassignmentBuilds(s: PState, left: Expr)
    requires Wf(s) && Cur(s).kind == Assign
    ensures left.Identifier? ==>
      var value := ParseExpression(Advance(s), Lowest);
      ParseInfix(s, left) == EResult(Reassignment(Cur(s), left.value, value.e), value.s)
    ensures !left.Identifier? ==> ParseInfix(s, left).s.crashed
  {
  }
}
