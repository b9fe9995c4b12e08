// The syntax tree and its printer (src/ast/ast.c, src/ast/ast.h).

module Ast {
  import opened Wrappers
  import opened Token
  import Fmt
  import CInt
  import StrUtils

  /** Expressions; Nil stands for the NULL pointer a failed parse function stores in its parent. */
  datatype Expr =
    | Nil
    | Identifier(token: Token, value: string)
    | NumberLiteral(token: Token, num: real)
    | PrefixExpr(token: Token, op: string, right: Expr)
    | InfixExpr(token: Token, left: Expr, op: string, right: Expr)
    | BooleanLiteral(token: Token, bval: bool)
    | IfExpr(condition: Expr, consequence: seq<Stmt>, alternative: Else)
    | FnLiteral(token: Token, params: seq<string>, body: seq<Stmt>)
    | CallExpr(token: Token, callee: Expr, args: seq<Expr>)
    | StringLiteral(token: Token, text: string)
    | ArrayLiteral(token: Token, elements: seq<Expr>)
    | IndexExpr(token: Token, left: Expr, index: Expr)
    | HashLiteral(token: Token, pairs: seq<(Expr, Expr)>)
    | WhileLoop(token: Token, condition: Expr, body: seq<Stmt>)
    | ForLoop(init: Clause, condition: Expr, update: Clause, body: seq<Stmt>)
    | Reassignment(token: Token, name: string, rhs: Expr)

  /** An if expression's alternative: none, or an else block. */
  datatype Else = NoElse | ElseBlock(block: seq<Stmt>)

  /** A for loop's optional initialization or update statement. */
  datatype Clause = NoClause | ClauseStmt(stmt: Stmt)

  /** Statements; a let's name is the identifier's value. */
  datatype Stmt =
    | LetStmt(token: Token, name: string, value: Expr)
    | ReturnStmt(token: Token, value: Expr)
    | ExprStmt(token: Token, expr: Expr)
    | BreakStmt(token: Token)
    | ContinueStmt(token: Token)

  /** new_identifier as intended: the identifier keeps the whole name. */
  function NewIdentifier(token: Token, value: string): (e: Expr)
    ensures e.Identifier? && e.value == value && e.token == token
  {
    Identifier(token, value)
  }

  /**
   * new_identifier as written: it allocates sizeof(value) bytes, the size of a pointer (8 on the
   * 64-bit targets the build uses), and strlcpy's into that many, so the name is truncated to the
   * C string left in the 8-byte buffer `heap`.
   */
  function NewIdentifierAsWritten(token: Token, value: string, heap: seq<char>): Expr
    requires |heap| == 8 && '\0' !in value
  {
    var src := value + ['\0'];
    assert src[|value|] == '\0';
    StrUtils.CopiedIsTruncation(heap, src, 8);
    var buf := StrUtils.Copied(heap, src, 8);
    Identifier(token, buf[..StrUtils.StrLen(buf)])
  }

  /** The as-written identifier holds only the first min(|value|, 7) characters. */
  lemma {:induction false} NewIdentifierAsWrittenTruncates(token: Token, value: string, heap: seq<char>)
    requires |heap| == 8 && '\0' !in value
    ensures NewIdentifierAsWritten(token, value, heap).value == value[..StrUtils.Min(|value|, 7)]
  {
    var src := value + ['\0'];
    assert src[|value|] == '\0';
    StrUtils.StrLenAt(src, |value|);
    StrUtils.CopiedIsTruncation(heap, src, 8);
    assert src[..StrUtils.Min(|value|, 7)] == value[..StrUtils.Min(|value|, 7)];
  }

  /** Two distinct names of eight letters sharing their first seven become one identifier. */
  lemma {:induction false} NewIdentifierAsWrittenCollides(token: Token, heap: seq<char>)
    requires |heap| == 8
    ensures NewIdentifierAsWritten(token, "identity", heap) == NewIdentifierAsWritten(token, "identitz", heap)
    ensures NewIdentifier(token, "identity") != NewIdentifier(token, "identitz")
  {
    NewIdentifierAsWrittenTruncates(token, "identity", heap);
    NewIdentifierAsWrittenTruncates(token, "identitz", heap);
    assert "identity"[..7] == "identitz"[..7];
    assert "identity"[7] != "identitz"[7];
  }

  // ---------------------------------------------------------------- printing

  /** The parts joined by sep, as the `i < size - 1` separator loops print them. */
  function Join(parts: seq<string>, sep: string): (s: string)
    ensures |parts| == 0 ==> s == ""
    ensures |parts| == 1 ==> s == parts[0]
  {
    if |parts| == 0 then "" else if |parts| == 1 then parts[0]
    else parts[0] + sep + Join(parts[1..], sep)
  }

  /** int_to_string: the number as a decimal integer (its `(long)` truncation). */
  function NumberString(v: real): string
  {
    Fmt.IntToString(CInt.Trunc(v))
  }

  /**
   * The pointers the printer dereferences are not NULL; `full` selects the printer with
   * string, array and index printers added.
   */
  predicate Printable(e: Expr, full: bool)
  {
    match e
    case Nil => false
    case PrefixExpr(_, _, r) => Printable(r, full)
    case InfixExpr(_, l, _, r) => Printable(l, full) && Printable(r, full)
    case IfExpr(c, cons, NoElse) => Printable(c, full) && BlockPrintable(cons, full)
    case IfExpr(c, cons, ElseBlock(alt)) => Printable(c, full) && BlockPrintable(cons, full) && BlockPrintable(alt, full)
    case CallExpr(_, f, args) => Printable(f, full) && ListPrintable(args, full)
    case ArrayLiteral(_, elems) => full ==> ListPrintable(elems, full)
    case IndexExpr(_, l, i) => full ==> Printable(l, full) && Printable(i, full)
    case _ => true
  }

  predicate ListPrintable(es: seq<Expr>, full: bool)
  {
    forall i | 0 <= i < |es| :: Printable(es[i], full)
  }

  predicate StmtPrintable(s: Stmt, full: bool)
  {
    match s
    case LetStmt(_, _, v) => v != Nil ==> Printable(v, full)
    case ReturnStmt(_, v) => v != Nil ==> Printable(v, full)
    case ExprStmt(_, v) => v != Nil ==> Printable(v, full)
    case _ => true
  }

  predicate BlockPrintable(b: seq<Stmt>, full: bool)
  {
    forall i | 0 <= i < |b| :: StmtPrintable(b[i], full)
  }

  /**
   * value_to_string. With full == false it is the printer as written, which has cases only for
   * identifiers, numbers, prefix, infix, booleans, if, fn and call and prints nothing for every
   * other expression; with full == true strings, arrays and index expressions are printed too.
   */
  function ExprStr(e: Expr, full: bool): string
    requires Printable(e, full)
    decreases e, 1
  {
    match e
    case Identifier(_, v) => v
    case NumberLiteral(_, v) => NumberString(v)
    case PrefixExpr(_, op, r) => "(" + op + ExprStr(r, full) + ")"
    case InfixExpr(_, l, op, r) => "(" + ExprStr(l, full) + " " + op + " " + ExprStr(r, full) + ")"
    case BooleanLiteral(tok, _) => tok.literal
    case IfExpr(c, cons, NoElse) => "if" + ExprStr(c, full) + " " + BlockStr(cons, full)
    case IfExpr(c, cons, ElseBlock(alt)) => "if" + ExprStr(c, full) + " " + BlockStr(cons, full) + "else" + BlockStr(alt, full)
    case FnLiteral(tok, params, _) => tok.literal + "(" + Join(params, ", ") + ")"
    case CallExpr(_, f, args) => ExprStr(f, full) + "(" + ListStr(args, full) + ")"
    case StringLiteral(_, text) => if full then text else ""
    case ArrayLiteral(_, elems) => if full then "[" + ListStr(elems, full) + "]" else ""
    case IndexExpr(_, l, i) => if full then "(" + ExprStr(l, full) + "[" + ExprStr(i, full) + "])" else ""
    case _ => ""
  }

  /** Expressions joined by ", ". */
  function ListStr(es: seq<Expr>, full: bool): (s: string)
    requires ListPrintable(es, full)
    decreases es, 0
  {
    if |es| == 0 then "" else if |es| == 1 then ExprStr(es[0], full)
    else ExprStr(es[0], full) + ", " + ListStr(es[1..], full)
  }

  /** stmt_to_string: let and return print their token literal first; break and continue print nothing. */
  function StmtStr(s: Stmt, full: bool): string
    requires StmtPrintable(s, full)
    decreases s, 1
  {
    match s
    case LetStmt(tok, name, v) => tok.literal + " " + name + " = " + (if v != Nil then ExprStr(v, full) else "")
    case ReturnStmt(tok, v) => tok.literal + (if v != Nil then ExprStr(v, full) else "")
    case ExprStmt(_, v) => if v != Nil then ExprStr(v, full) else ""
    case _ => ""
  }

  /** block_to_string: the statements with no separator. */
  function BlockStr(b: seq<Stmt>, full: bool): string
    requires BlockPrintable(b, full)
    decreases b, 0
  {
    if |b| == 0 then "" else StmtStr(b[0], full) + BlockStr(b[1..], full)
  }

  /** program_string: the statements with no separator, then ";\n" once. */
  function ProgramStr(stmts: seq<Stmt>, full: bool): (s: string)
    requires BlockPrintable(stmts, full)
    ensures |s| >= 2 && s[|s| - 2..] == ";\n"
    ensures s[..|s| - 2] == BlockStr(stmts, full)
  {
    BlockStr(stmts, full) + ";\n"
  }

  /** The expression `b[2]` as parse_index_expression builds it. */
  const IndexB2: Expr := IndexExpr(Token(LBracket, "["), Identifier(Token(Ident, "b"), "b"), NumberLiteral(Token(Number, "2"), 2.0))

  lemma {:induction false} TwoPrints()
    ensures NumberString(2.0) == "2"
  {
    assert CInt.Trunc(2.0) == 2;
    assert Fmt.NatToString(2) == [Fmt.DigitChar(2)];
  }

  lemma {:induction false} IndexB2Prints()
    ensures Printable(IndexB2, true) && ExprStr(IndexB2, true) == "(b[2])"
  {
    TwoPrints();
    var whole := "(" + "b" + "[" + "2" + "])";
    assert ExprStr(IndexB2, true) == whole;
    assert forall k | 0 <= k < 6 :: whole[k] == "(b[2])"[k];
  }

  /** A block of one statement prints as that statement. */
  lemma {:induction false} BlockStrSingle(st: Stmt, full: bool)
    requires StmtPrintable(st, full)
    ensures BlockPrintable([st], full) && BlockStr([st], full) == StmtStr(st, full)
  {
    assert [st][1..] == [];
  }

  /** Printing `b[2]` with the printer as written: it has no case for an index expression and prints ";\n" alone. */
  lemma {:induction false} IndexNotPrinted()
    ensures BlockPrintable([ExprStmt(Token(Ident, "b"), IndexB2)], false)
    ensures ProgramStr([ExprStmt(Token(Ident, "b"), IndexB2)], false) == ";\n"
  {
    var st := ExprStmt(Token(Ident, "b"), IndexB2);
    BlockStrSingle(st, false);
    assert StmtStr(st, false) == "";
  }

  /** Printing `b[2]` with the index printer gives "(b[2]);\n". */
  lemma {:induction false} IndexPrinted()
    ensures BlockPrintable([ExprStmt(Token(Ident, "b"), IndexB2)], true)
    ensures ProgramStr([ExprStmt(Token(Ident, "b"), IndexB2)], true) == "(b[2]);\n"
  {
    IndexB2Prints();
    var st := ExprStmt(Token(Ident, "b"), IndexB2);
    BlockStrSingle(st, true);
    var whole := "(b[2])" + ";\n";
    assert forall k | 0 <= k < 8 :: whole[k] == "(b[2]);\n"[k];
  }
}
