# Monkey in C, modelled in Dafny

This project models the core of a C implementation of the Monkey language. Monkey is the small
language with `let`, first-class functions, closures, arrays and hashes. This version adds
`while`/`for` loops, `break`/`continue`, reassignment, and binary, hex and bit operators. The
model covers both of the implementation's execution paths:

- **Front end.** The lexer (`lexer.c`, `token.c`) turns source text into tokens. The Pratt
  parser (`parser.c`) builds the syntax tree, and the printers in `ast.c` turn the tree back
  into text.
- **Tree-walking interpreter** (`evaluator.c` and `environment.c`). It evaluates the tree over a
  chain of environments.
- **Bytecode path.**
  - The instruction encoding (`code.c`, `big_endian.c`).
  - The symbol tables and the compiler (`symbol_table.c`, `compiler.c`).
  - The stack virtual machine (`vm.c`), with the objects and builtins it shares with the
    interpreter (`object.c`, `builtins.c`).
  - The binary file format (`file_generator.c`, `file_loader.c`).
- **Support code.** The growable arrays, the linked list and `strlcpy` that everything above
  is built on.

There is one Dafny module per C file. The style follows the C file:

- Code that changes objects in place becomes a class with methods. Examples are the dynamic
  arrays, the linked list, the lexer, the parser's token window, the compiler state, the VM,
  and the file writer and reader. Each method is proved equal to a specification function of
  its old state.
- Pure code becomes functions, with lemmas about them.
- The recursive parts (parser, printers, compiler, evaluator) are functions over immutable
  state records. The classes call those functions.

Modelling choices that hold throughout:

- **Numbers.** Monkey numbers are C `double`s. They are modelled as exact `real`s. Each C
  conversion to `long`, `size_t`, `int8_t` or `uint8_t` is written out as a truncation or a
  modular reduction (`CInt`).
- **Memory.** Pointers to objects become indices into an explicit heap. Environments are a
  heap of stores with outer links. The VM's objects are a heap of values.
- **Failures.**
  - A failing C `assert`, or a read through NULL or past the end of an array, becomes an
    explicit `Crash`/`Stuck` outcome rather than a precondition.
  - Runtime errors become the same error objects and VM result codes the C returns, with
    the exceptions listed under "## Left out". This includes the `size_t` wrap-arounds of
    `sp`: a return from the main frame, or OP_ARRAY/OP_HASH with more operands than stack
    slots, ends with VM_STACK_OVERFLOW as in C.
- **Fuel.** A Monkey program may loop forever. So the evaluator and the VM's run loop take a
  fuel argument, and they report running out of fuel as its own outcome.
- **Tokens.** The parser works on the token sequence the lexer produces, ending in
  END_OF_FILE. This is the same as pulling tokens on demand, because `parse_program` pulls
  every token and the lexer is deterministic.
- **Defects.** The C has defects that change results. Where a C test, or the rest of the
  program, shows what was meant, the composed model follows the intended behaviour. Examples
  are the opcode table, the environment lookup, the back jump of `while`, the empty-array
  index and the hash keys. The code as written is kept beside it as a separately named member
  (`…AsWritten`), with a lemma that exhibits the difference. The "## Findings" table below
  lists each pair.
- **Naming.** `object.c` names the number kind `INTEGER_OBJ` in its type-name table, while
  some tests expect `NUMBER_OBJ`. Error messages in the model use the table's name, as the
  code does.
- **Missing helpers.**
  - `big_endian.c` does not define the `uint16_to_big_endian`/`big_endian_to_uint16` helpers
    the file writer and reader call. They are modelled as plain two-byte big-endian
    conversions.
  - `token.h` and `vm.h` lag behind the code in places. The model follows the `.c` files.

## Model

| member | source | states |
|---|---|---|
| BigEndian.Bytes16 | src/big_endian/big_endian.c:7-15 | the two bytes of a 16-bit value, high byte first: `r[0] * 256 + r[1] == num`, each below 256 |
| BigEndian.AsUint16 | src/big_endian/big_endian.c:7-10 | `buf[0]`, `buf[1]` become the high and low byte of num; every later element of buf is unchanged |
| BigEndian.PushUint16 | src/big_endian/big_endian.c:12-15 | the array's contents become the old contents followed by exactly the high byte and the low byte of num |
| BigEndian.ReadUint16 | src/big_endian/big_endian.c:17-20 | needs `offset + 2 <= len` (the source's assert); the result is below 65536 and, when both elements are bytes, equals `arr[offset] * 256 + arr[offset + 1]`; the array is only read |
| BigEndian.ReadUint16Value | src/big_endian/big_endian.c:19 | the or of the shifted high byte and the low element fits 16 bits, and is `x * 256 + y` when both are bytes |
| BigEndian.ReadAfterPush | src/big_endian/big_endian.c:12-20 | round trip: reading at the offset where a 16-bit value was pushed yields that value, whatever precedes or follows |
| DynArray.Array.Init | src/dyn_array/dyn_array.c:13-17 | a new array has `len == 0`, `cap == initial_size` and no elements |
| DynArray.Array.Append | src/dyn_array/dyn_array.c:4-11 | needs `cap > 0`; len grows by one, contents become old contents + [v] (earlier elements kept across the reallocation), cap doubles exactly when `len == cap`, so `len <= cap` is kept |
| DynArray.Array.Free | src/dyn_array/dyn_array.c:19-27 | afterwards the block is NULL and `len == cap == 0` |
| DynArray.Array.At | src/dyn_array/dyn_array.c:10 | element i of the block is element i of the contents |
| LinkedList.Node.constructor | src/linked_list/linked_list.c:7-18 | a new node holds the value and has a NULL next |
| LinkedList.List.constructor | src/linked_list/linked_list.c:20-32 | a new list has size 0 and NULL head and tail |
| LinkedList.List.Append | src/linked_list/linked_list.c:34-47 | size grows by exactly 1 and the values become old values + [v]; the first append makes tail and head the new node, a later one links it after the old head and makes it head with tail unchanged; head's next stays NULL |
| LinkedList.List.Walk | src/linked_list/linked_list.c:55-65 | walking from tail along next visits the values in insertion order and ends at a NULL next |
| LinkedList.List.Free | src/linked_list/linked_list.c:49-66 | the walk from tail unlinks every node (each next becomes NULL) |
| StrUtils.StrLen | src/str_utils/str_utils.c:33-36 | strlen: the index of the first NUL; no NUL before it |
| StrUtils.CopiedIsTruncation | src/str_utils/str_utils.c:22-32 | with `siz > 0` the buffer is NUL-terminated, its C string has length `min(strlen(src), siz - 1)` and is that prefix of src |
| StrUtils.CopiedWhenFits | src/str_utils/str_utils.c:23-26 | when `strlen(src) < siz` the buffer's C string equals src, NUL included |
| StrUtils.Strlcpy | src/str_utils/str_utils.c:18-37 | returns `strlen(src)` whatever siz is; dst afterwards is `Copied`: unchanged when siz is 0, else the first `min(strlen(src), siz - 1)` characters of src then a NUL, the rest of dst unchanged |
| Code.DefinitionAsWritten | src/code/code.c:10-60 | the table as initialised: OP_CONSTANT has one 2-byte operand, OP_ADD..OP_BIT_XOR none, every later entry is zero (no name, no operands) |
| Code.DefinitionOf | src/code/code.h:13-61 | the corrected table: every opcode below OP_COUNT carries its enumerator name and at most four widths |
| Code.DefinitionWidths | src/vm/vm.c:346-620 | each corrected entry lists exactly the operand widths the VM reads, each one or two bytes, at most two |
| Code.LookupAsWritten | src/code/code.c:62-67 | the guard `opcode > OP_COUNT`: NULL above OP_COUNT (or for a negative value), a read past the table at OP_COUNT, an entry otherwise |
| Code.LookupAsWrittenPastEnd | src/code/code.c:62-67 | OP_COUNT, and only OP_COUNT, passes the guard and indexes one past the OP_COUNT-entry table |
| Code.Lookup | src/code/code.c:62-67 | corrected lookup: an entry exactly for `0 <= op < OP_COUNT`, NULL otherwise |
| Code.OperandBytes | src/code/code.c:84-90 | one operand's bytes: two big-endian bytes for width 2, its low byte for width 1, every byte below 256 |
| Code.MakeInstructionAsWritten | src/code/code.c:69-93 | make_instruction over the table as written: the opcode, then two big-endian bytes per width-2 operand; other widths are dropped |
| Code.AsWrittenOpcodeOnly | src/code/code.c:84-90 | over the table as written every opcode from OP_TRUE on encodes as the opcode alone, whatever operands are passed |
| Code.MakeInstructionAsWrittenDropsOperands | src/code/code_test.c:48-71 | as written, OP_GET_LOCAL 0xFF gives [OP_GET_LOCAL] and OP_CLOSURE 0xFFFE 0xFF gives [OP_CLOSURE]; the corrected encoding gives the test's [OP_GET_LOCAL, 0xFF] and [OP_CLOSURE, 0xFF, 0xFE, 0xFF] |
| Code.EncodeLength | src/code/code.c:74-77 | the encoded operands take exactly the sum of their widths |
| Code.MakeInstruction | src/code/code.c:69-93 | the loop builds `Instruction(op, operands)`: first element the opcode, then each operand in its width, big-endian for width 2 and, as a correction of the missing `case 1`, one byte for width 1 |
| Code.ReadOperands | src/code/code.c:143-161 | the operands read with a running offset (`DecodeOperands`, None when a read leaves the stream), a width-1 operand read as one byte as a correction of the missing `case 1`; bytes_read is the sum of the definition's operand widths |
| Code.WidthOneDroppedAsWritten | src/code/code.c:145-158 | with no `case 1`, even over the corrected table OP_GET_LOCAL 0xFF is written as the opcode alone and its operand is stepped over unread, while the corrected encoding and decoding write and read the byte (also lines 84-90) |
| Code.DecodeEncode | src/code/code.c:143-161 | decoding encoded operands gives them back when each fits its width, whatever precedes or follows them |
| Code.ReadOperandsRoundTrip | src/code/code_test.c:117-146 | round trip: read_operands(lookup(op), make_instruction(op, ops), 1) returns ops, and 1 + bytes_read is the instruction's length |
| Code.FormatAsWritten | src/code/code.c:95-113 | a count mismatch gives the "ERROR: operand len …" text; 0 operands give the name, 1 gives name and operand; any other count hits the assert (None) |
| Code.FormatAsWrittenRejectsClosure | src/code/code_test.c:96-104 | as written, OP_CLOSURE's two operands hit the assert; the corrected formatter prints the test's "OP_CLOSURE 65535 255" |
| Code.FormatTotal | src/code/code.c:103-112 | with the corrected table and two-operand case, every opcode formats |
| Code.DisassembleStep | src/code/code.c:118-140 | a step that prints a line and moves forward puts that line in front of the rest of the listing |
| Code.StepKnown | src/code/code.c:118-139 | at a known opcode whose operands can be read, the step yields that definition with the decoded operands and moves on by 1 + bytes_read |
| Code.DisassembleInstruction | src/code/code.c:115-141 | at an encoded instruction in any stream the step finds the opcode's definition with exactly the operands it was built from, and resumes just past its operand bytes, inside the stream |
| Code.RenderListed | src/code/code.c:132-137 | every instruction of the corrected table renders to a line: "%04ld %s\n" of its offset and its formatted text (the formatter never asserts) |
| Code.EveryOpcodeNamed | src/code/code.c:10-60 | every entry of the corrected table prints its own enumerator name, never "(null)" |
| Code.DisassembleAsWrittenNullName | src/code/code.c:10-60 | over the table as written [OP_TRUE] lists as "0000 (null)\n"; with the corrected table it lists as "0000 OP_TRUE\n" |
| Code.DisassembleAsWrittenPastEnd | src/code/code.c:62-67 | as written, an OP_COUNT byte reaches the read past the table (no listing); the corrected lookup reports it as an unknown opcode |
| Code.InstructionsToString | src/code/code.c:115-141 | the loop's output is `Disassemble(ins, 0)`: each instruction's line in stream order; an unknown opcode prints an error line and advances by 1 |
| Token.LookupIdentKeyword | src/token/token.c:9-56 | each of fn, let, true, false, if, else, return, while, continue, break and for maps to its own keyword kind (the second "false" test changes nothing) |
| Token.LookupIdentOthers | src/token/token.c:58 | a string maps to IDENT if and only if it is not one of the eleven keywords |
| Token.LookupIdentCaseSensitive | src/token/token.c:10-56 | matching is exact and case-sensitive: "Fn" and "LET" are identifiers |
| Lexer.Span | src/lexer/lexer.c:82-121 | the end of the maximal run of one character class: every character before it is in the class, the one at it is not |
| Lexer.SkipWs | src/lexer/lexer.c:136-139 | the first index at or after i that is not space, \n, \t or \r; everything skipped is whitespace |
| Lexer.NextTokenAdvances | src/lexer/lexer.c:188-317 | every token but END_OF_FILE moves the cursor past the skipped whitespace; END_OF_FILE stays at it; the cursor never passes the NUL by more than one |
| Lexer.NextTokenNeverIllegal | src/lexer/lexer.c:304-312 | in string mode the `||` of two strcmp calls is always true, so no input yields ILLEGAL |
| Lexer.UnrecognisedIsEndOfFile | src/lexer/lexer.c:304-306 | an unrecognised character, or the end of input, yields END_OF_FILE with an empty literal and does not advance |
| Lexer.SkipWsIdempotent | src/lexer/lexer.c:136-139 | skipping whitespace twice is skipping it once |
| Lexer.WhitespaceIsSkipped | src/lexer/lexer.c:191 | a whitespace character before a token does not change the token |
| Lexer.IdentifierIsMaximal | src/lexer/lexer.c:292-295 | an identifier is a non-empty maximal run of letters or `_`, its kind is lookup_ident of its text, and the character after it is not a letter (a digit ends it) |
| Lexer.TokensEndInEof | src/lexer/lexer.c:188-317 | the token stream the parser pulls ends in END_OF_FILE, which occurs nowhere earlier |
| Lexer.TokensStep | src/lexer/lexer.c:188-317 | a token other than END_OF_FILE is followed by the tokens lexed from the position after it |
| Lexer.TokensAtEnd | src/lexer/lexer.c:48-58 | at the end of the input the only token left is END_OF_FILE |
| Lexer.BinaryLiteralExample | src/lexer/lexer_test.c:98-99 | "0b1010" lexes as BINARY "1010" (prefix removed) then END_OF_FILE |
| Lexer.DecimalNumberExample | src/lexer/lexer_test.c:110 | "1.5" is a single NUMBER token |
| Lexer.Lexer.constructor | src/lexer/lexer.c:14-23 | new_lexer starts at index 0 with the first character loaded and `read_position == position + 1` |
| Lexer.Lexer.ReadChar | src/lexer/lexer.c:48-65 | ch becomes the character at read_position (NUL past the end); position becomes read_position and read_position grows by one |
| Lexer.Lexer.PeekChar | src/lexer/lexer.c:67-78 | the character after the current one (NUL past the end); a function over the state, so position, read_position and ch are unchanged |
| Lexer.Lexer.SkipWhitespace | src/lexer/lexer.c:136-139 | the cursor ends at `SkipWs` of where it started |
| Lexer.Lexer.ReadRun | src/lexer/lexer.c:82-110 | read_identifier/number/hex: the literal is the maximal run of the class from the cursor, and the cursor ends just past it |
| Lexer.Lexer.ReadString | src/lexer/lexer.c:112-121 | the literal is the characters after the opening quote up to `"` or NUL, quotes excluded |
| Lexer.Lexer.ReadSpecialNumber | src/lexer/lexer.c:141-162 | after '0': 'x' gives HEX of the alphanumeric run after the two-character prefix, 'b' gives BINARY of the digit run after it, any other letter hits the unreachable assert (None) |
| Lexer.Lexer.NextToken | src/lexer/lexer.c:188-317 | the method's token and new cursor are exactly `NextTokenSpec`: whitespace skipped, ==, !=, <<, >>, && and \|\| by one-character lookahead, otherwise the single-character token |
| Lexer.Lexer.ReadOperator | src/lexer/lexer.c:194-290 | on a punctuation character the token and new cursor are those of `TokenAt`: the two-character operator when the next character completes it, otherwise the single-character token |
| Lexer.Lexer.ReadWord | src/lexer/lexer.c:233-236 | on `"` or a letter the token and new cursor are those of `TokenAt`: a STRING without its quotes, or (lines 292-295) an identifier or keyword by lookup_ident |
| Lexer.Lexer.ReadNumber | src/lexer/lexer.c:296-303 | on a digit the token and new cursor are those of `TokenAt`: HEX or BINARY after a `0x`/`0b` prefix, otherwise NUMBER; an unknown prefix letter aborts (None) with the cursor still inside the input |
| Ast.NewIdentifier | src/ast/ast.c:11-28 | the identifier keeps its token and the whole name (the intended behaviour, used by the parser) |
| Ast.NewIdentifierAsWrittenTruncates | src/ast/ast.c:18-25 | as written the value buffer is `sizeof(char *)` bytes and strlcpy copies at most 7 characters: the stored name is the first min(len, 7) characters |
| Ast.NewIdentifierAsWrittenCollides | src/ast/ast.c:18-25 | as written "identity" and "identitz" become the same identifier; the intended constructor keeps them apart |
| Ast.Join | src/ast/ast.c:83-112 | the `i < len - 1` separator loops: no parts give "", one part gives that part with no separator |
| Ast.ProgramStr | src/ast/ast.c:206-214 | program_string is the statements printed with no separator, then ";\n" exactly once at the end |
| Ast.TwoPrints | src/ast/ast.c:162-167 | int_to_string prints the number 2 as "2" |
| Ast.IndexB2Prints | src/ast/ast.c:178-189 | with an index printer `b[2]` prints as "(b[2])", the form the parser tests expect |
| Ast.BlockStrSingle | src/ast/ast.c:62-69 | a block of one statement prints as that statement |
| Ast.IndexNotPrinted | src/ast/ast.c:114-133 | value_to_string has no case for an index expression, so the program `b[2]` prints as ";\n" alone |
| Ast.IndexPrinted | src/ast/ast.c:114-133 | with the missing case added the program `b[2]` prints as "(b[2]);\n" |
| Parser.PrecedenceMatchesInfix | src/parser/parser.c:39-59 | a token has a precedence above LOWEST exactly when an infix parse function is registered for it, and no precedence exceeds REASSIGN |
| Parser.HexStart | src/parser/parser.c:293-300 | htoi skips an optional "0x"/"0X" prefix and starts inside the string |
| Parser.Htoi | src/parser/parser.c:293-311 | the loop `res = res * 16 + digit` computes the base-16 value of the digits after the prefix |
| Parser.BinaryValueFromRight | src/parser/parser.c:274-291 | the right-to-left sum of `bit << position` equals doubling the value of the prefix and adding the last bit |
| Parser.BinaryLiteralValue | src/parser/parser.c:274-291 | the loop from the last character with a growing shift computes the base-2 value of the literal |
| Parser.BinaryLiteralExample | src/parser/parser.c:274-291 | "1010" has the value 10 |
| Parser.Pow10 | src/parser/parser.c:263-272 | the scale of a decimal fraction is positive |
| Parser.DigitRun | src/parser/parser.c:263-272 | the integer part strtof reads is the longest run of leading digits |
| Parser.Advance | src/parser/parser.c:26-29 | parser_next_token: the old peek token becomes the current one; at END_OF_FILE the state stays put; nothing else changes |
| Parser.AddError | src/parser/parser.c:71-77 | an error is appended after the earlier ones |
| Parser.Expected | src/parser/parser.c:79-87 | expect_peek advances exactly when the peek token has the wanted kind, and otherwise records exactly one "Expected next token" error without moving |
| Parser.SkipSemicolon | src/parser/parser.c:115-117 | one optional semicolon is skipped and no error is added |
| Parser.ParseStatement | src/parser/parser.c:244-257 | parse_statement dispatches on the current token; the state only moves forward, errors are only appended and an abort is final |
| Parser.ParseLet | src/parser/parser.c:89-120 | a let statement leaves a later state (errors only appended); the node it builds is stated by ParserTrees.LetBuilds |
| Parser.LetValue | src/parser/parser.c:104-120 | the `= value` part of a let leaves a later state; the node it builds is stated by ParserTrees.LetBuilds |
| Parser.ParseReturn | src/parser/parser.c:122-142 | a return statement leaves a later state; the node it builds is stated by ParserTrees.ReturnBuilds |
| Parser.ParseLoopControl | src/parser/parser.c:191-242 | outside a loop a `break`/`continue` gives no statement and exactly the "Illegal ... statement" error; inside one it is a statement and no error is added |
| Parser.ParseExpressionStatement | src/parser/parser.c:173-189 | an expression statement leaves a later state; the node it builds is stated by ParserTrees.ExpressionStatementBuilds |
| Parser.Statements | src/parser/parser.c:362-380 | the statement loop stops at END_OF_FILE, or at `}` inside a block, unless an assert aborted |
| Parser.StatementsExtend | src/parser/parser.c:830-842 | the statement loop only appends to the statements already collected |
| Parser.StatementsStep | src/parser/parser.c:830-842 | one iteration of parse_program's loop: the statement is kept unless NULL, and the parser strictly advances |
| Parser.StatementsDone | src/parser/parser.c:830-842 | at END_OF_FILE the loop adds nothing |
| Parser.ParseBlock | src/parser/parser.c:362-380 | a block leaves a later state; the node it builds is stated by ParserTrees.BlockBuilds and ParserTrees.EmptyBlockBuilds |
| Parser.ParseExpression | src/parser/parser.c:144-171 | with a prefix function, parse_expression stops exactly when the next token is `;` or binds no tighter than the given precedence; without one it returns NULL after the "no prefix parse function" error |
| Parser.InfixLoop | src/parser/parser.c:159-170 | the infix loop ends in a settled state: the next token is `;` or binds no tighter |
| Parser.ParsePrefix | src/parser/parser.c:153-157 | the prefix parse functions leave a later state; the node it builds is stated by ParserTrees.PrefixLeaves and the lemmas for each prefix construct below |
| Parser.ParsePrefixExpression | src/parser/parser.c:324-336 | a prefix expression leaves a later state; the node it builds is stated by ParserTrees.PrefixExpressionBuilds |
| Parser.ParseGrouped | src/parser/parser.c:349-360 | a parenthesised expression leaves a later state; the node it builds is stated by ParserTrees.GroupedBuilds |
| Parser.ParseIf | src/parser/parser.c:382-424 | an if expression leaves a later state; the node it builds is stated by ParserTrees.IfBuilds and ParserTrees.IfElseBuilds |
| Parser.IfBlocks | src/parser/parser.c:393-424 | the consequence and alternative leave a later state; the node it builds is stated by ParserTrees.IfBlocksBuild |
| Parser.IfConsequence | src/parser/parser.c:400-410 | the consequence block leaves a later state; the node it builds is stated by ParserTrees.IfBlocksBuild |
| Parser.IfAlternative | src/parser/parser.c:407-424 | the optional else block leaves a later state; the node it builds is stated by ParserTrees.AlternativeBuilds |
| Parser.ParamsLoop | src/parser/parser.c:440-445 | the `, name` loop adds no error, keeps INSIDE_LOOP and stops where no comma follows; the names it collects are stated by Parser.ParamsLoopNames |
| Parser.ParamsLoopNames | src/parser/parser.c:440-445 | the loop collects exactly the name after each comma (`CommaNames`), after the names it started with |
| Parser.ParseParameters | src/parser/parser.c:426-453 | the parameter list leaves a later state with INSIDE_LOOP unchanged; the names it collects are stated by Parser.ParseParametersNames |
| Parser.ParseParametersNames | src/parser/parser.c:426-453 | `()` gives no names and moves onto the `)`; otherwise the names are the identifier after `(` followed by the one after each comma, the list ends on `)` with no new error, and an unclosed list records exactly one error |
| Parser.ParseFunction | src/parser/parser.c:455-481 | a function literal leaves a later state (the intended NULL when the parameter list fails); the node it builds is stated by ParserTrees.FunctionBuilds |
| Parser.AfterBadParamsAsWritten | src/parser/parser.c:447-450 | as written, after a failed parameter list the `len < 0` test on a size_t never fires: the program aborts exactly when `{` does not follow, after a second error |
| Parser.ListLoop | src/parser/parser.c:512-516 | the `, expression` loop leaves a later state; the node it builds is stated by ParserTrees.ListLoopItems |
| Parser.ListLoopExtends | src/parser/parser.c:512-516 | the list loop only appends |
| Parser.ParseList | src/parser/parser.c:692-716 | an argument or element list leaves a later state; the node it builds is stated by ParserTrees.ListBuilds |
| Parser.ParseArray | src/parser/parser.c:495-524 | an array literal leaves a later state; the node it builds is stated by ParserTrees.ArrayBuilds |
| Parser.HashLoop | src/parser/parser.c:535-555 | the key-value loop leaves a later state; the node it builds is stated by ParserTrees.HashLoopFrom and ParserTrees.HashPairs |
| Parser.HashValue | src/parser/parser.c:538-548 | the `: value` part leaves a later state; the node it builds is stated by ParserTrees.HashValueFrom and ParserTrees.PairBuilds |
| Parser.HashNext | src/parser/parser.c:550-554 | the separator after a pair leaves a later state; the node it builds is stated by ParserTrees.HashNextFrom |
| Parser.ParseHash | src/parser/parser.c:526-564 | a hash literal leaves a later state; the node it builds is stated by ParserTrees.HashBuilds |
| Parser.ParseWhile | src/parser/parser.c:566-604 | a parsed while loop restores INSIDE_LOOP; a failed one returns NULL with INSIDE_LOOP left set; the node it builds is stated by ParserTrees.WhileBuilds |
| Parser.WhileRest | src/parser/parser.c:575-604 | after `(` the result is a while loop or NULL; the node it builds is stated by ParserTrees.WhileRestBuilds |
| Parser.ParseClause | src/parser/parser.c:606-618 | parse_if_exists leaves a later state; the node it builds is stated by ParserTrees.ClauseBuilds |
| Parser.ParseFor | src/parser/parser.c:620-673 | a parsed for loop restores INSIDE_LOOP; a failed one returns NULL with INSIDE_LOOP left set; the node it builds is stated by ParserTrees.ForBuilds |
| Parser.ForHeader | src/parser/parser.c:628-673 | after `(` the result is a for loop or NULL; the node it builds is stated by ParserTrees.ForBuilds |
| Parser.ForUpdate | src/parser/parser.c:645-655 | the update clause leaves a later state; the node it builds is stated by ParserTrees.UpdateBuilds |
| Parser.ForRest | src/parser/parser.c:645-673 | the rest of the for loop is a for loop or NULL; the node it builds is stated by ParserTrees.ForRestBuilds |
| Parser.ParseInfix | src/parser/parser.c:675-772 | infix, call, index and reassignment expressions leave a later state; a reassignment of a non-identifier aborts; the node it builds is stated by ParserTrees.BinaryBuilds, ParserTrees.CallBuilds, ParserTrees.IndexBuilds and ParserTrees.ReassignmentBuilds |
| Parser.Parser.constructor | src/parser/parser.c:774-822 | new_parser: the first token is current, no errors, INSIDE_LOOP as given |
| Parser.Parser.NextToken | src/parser/parser.c:26-29 | the parser's state becomes `Advance` of the old state |
| Parser.Parser.PeekError | src/parser/parser.c:71-76 | the new state is the old one with exactly the message "Expected next token to be X, got Y." appended to the errors, naming the expected kind and the peek token's kind |
| Parser.Parser.ExpectPeek | src/parser/parser.c:79-87 | the method's result and new state are those of `Expected` |
| Parser.Parser.ParseProgram | src/parser/parser.c:830-842 | the loop collects exactly the statements `Statements` describes and ends at END_OF_FILE, or reports an abort |
| Parser.ParseTokens | src/parser/parser.c:830-842 | parsing with a fresh parser gives the program and errors `ParseProgramSpec` describes, and aborts exactly when it does |
| ParserTrees.LetBuilds | src/parser/parser.c:89-120 | `let x = v` gives a let statement named x holding v parsed at LOWEST from the token after `=`, then skips one token and an optional `;`; a missing name or `=` gives no statement and exactly the "Expected next token" error |
| ParserTrees.ReturnBuilds | src/parser/parser.c:122-142 | `return v` gives a return statement holding v parsed at LOWEST, never NULL, with no error beyond v's |
| ParserTrees.ExpressionStatementBuilds | src/parser/parser.c:173-189 | any other statement wraps the expression starting at the current token and is never NULL; a token without a prefix function gives a statement holding NULL and exactly one error |
| ParserTrees.StatementMoves | src/parser/parser.c:830-842 | a statement that does not abort ends so that the next advance moves past the token it started at |
| ParserTrees.StatementsUnfold | src/parser/parser.c:371-377 | one turn of the statement loops: the statement is appended unless NULL and the loop goes on from the next token |
| ParserTrees.StatementsFrom | src/parser/parser.c:362-380 | the statement loops put what they were given in front of the statements they parse, and end in the same state whatever they were given |
| ParserTrees.EmptyBlockBuilds | src/parser/parser.c:362-380 | `{}` is an empty block that ends on the `}` |
| ParserTrees.BlockBuilds | src/parser/parser.c:362-380 | a block is its first statement (left out when NULL) followed by the block that starts where that statement ended; an abort in the first statement leaves the block empty |
| ParserTrees.BlockOfOneBuilds | src/parser/parser.c:362-380 | a block of one statement followed by `}` holds exactly that statement |
| ParserTrees.PrefixLeaves | src/parser/parser.c:259-272 | an identifier, a decimal number, `true`, `false` and a string are leaves built from the current token without moving (also lines 338-347 and 483-493) |
| ParserTrees.PrefixExpressionBuilds | src/parser/parser.c:324-336 | `!x` and `-x` build a prefix node with the operator's literal over the operand parsed at PREFIX, so the operand ends before any binary operator |
| ParserTrees.GroupedBuilds | src/parser/parser.c:349-360 | `(e)` is e itself, ending on the `)`; a missing `)` gives NULL and exactly one error |
| ParserTrees.IfBuilds | src/parser/parser.c:382-392 | `if` without `(` gives NULL and one error; otherwise the condition is parsed at LOWEST from the token after `(` |
| ParserTrees.IfBlocksBuild | src/parser/parser.c:394-406 | after the condition a missing `)` or `{` gives NULL and exactly one error; otherwise the consequence is the block after `{` |
| ParserTrees.AlternativeBuilds | src/parser/parser.c:408-424 | as intended, without `else` the node has a NULL alternative; `else {` ... `}` gives the alternative block; `else` without `{` gives NULL and one error |
| ParserTrees.IfElseBuilds | src/parser/parser.c:382-424 | `if (c) {..} else {..}` with every token in place is an if node over c and the two blocks, the shape parser_test.c:345-370 checks |
| ParserTrees.FunctionBuilds | src/parser/parser.c:455-481 | `fn (params) {body}` is a function literal with the `(` as its token, the names of `ParseParametersNames` and the body block; a missing `(` or `{` gives NULL and one error, an unclosed parameter list NULL |
| ParserTrees.AlternativeAsWritten | src/parser/parser.c:387-421 | as written, the alternative field of the returned if node is unset exactly where the intended node has no alternative, and holds the else block otherwise |
| ParserTrees.IfWithoutElseUnset | src/parser/parser.c:407-409 | as written, an if without `else`, such as `if (false) { 10 }`, is returned with its alternative unset |
| ParserTrees.ListLoopFrom | src/parser/parser.c:512-516 | the `, item` loop puts what it was given in front of the items it parses, ending in the same state |
| ParserTrees.ListLoopItems | src/parser/parser.c:512-516 | the loop collects nothing unless a comma follows; otherwise the expression after the comma, parsed at LOWEST, then the items after it |
| ParserTrees.ListBuilds | src/parser/parser.c:692-716 | a list is empty when the closer comes next; otherwise the first item parsed at LOWEST and the comma-separated items, ending on the closer, or None with exactly one error when the closer is missing |
| ParserTrees.ArrayBuilds | src/parser/parser.c:495-524 | `[]` is an empty array literal; `[a, b, ...]` holds the items in order; an unclosed list gives NULL and one error |
| ParserTrees.HashLoopFrom | src/parser/parser.c:535-555 | the pair loop puts the pairs it was given in front of the ones it parses (or fails with the same state) |
| ParserTrees.HashValueFrom | src/parser/parser.c:538-548 | the same from the `:` after a key |
| ParserTrees.HashNextFrom | src/parser/parser.c:550-554 | the same after a pair |
| ParserTrees.HashValueUnfold | src/parser/parser.c:538-548 | after a key, a missing `:` gives None and one error; otherwise the pair (key, value parsed at LOWEST) goes after the others |
| ParserTrees.PairBuilds | src/parser/parser.c:538-554 | after a key: `: v }` ends the pairs with (key, v); `: v ,` puts (key, v) in front of the pairs after the comma; a missing `:` or `,` gives None and exactly one error |
| ParserTrees.HashPairs | src/parser/parser.c:535-555 | the pairs are none when `}` comes next, otherwise a key parsed at LOWEST and what `PairBuilds` says follows it |
| ParserTrees.HashBuilds | src/parser/parser.c:526-564 | `{}` is an empty hash literal; otherwise the literal holds the pairs in source order when `}` closes them, and is NULL when a pair fails or `}` is missing |
| ParserTrees.WhileRestBuilds | src/parser/parser.c:575-604 | from `(`: the condition parsed at LOWEST, then `)` and the body block give a while node; a missing `)` gives NULL and one error |
| ParserTrees.WhileStart | src/parser/parser.c:566-604 | parse_while_loop sets INSIDE_LOOP before `(` and clears it after a built loop only when it set it |
| ParserTrees.WhileBuilds | src/parser/parser.c:566-604 | `while (c) {body}` is a while node over c and the body, both parsed with INSIDE_LOOP set, and INSIDE_LOOP is afterwards what it was; a missing `(` or `)` gives NULL, one error, and INSIDE_LOOP left set |
| ParserTrees.ClauseBuilds | src/parser/parser.c:606-618 | a for clause is absent when `;` comes next or when the current `;` is followed by `)`; otherwise it is the statement at the next token, absent when NULL |
| ParserTrees.UpdateBuilds | src/parser/parser.c:645-655 | the update clause is absent when `)` comes next; otherwise it is the statement at the next token, after which a `)` is skipped only when present |
| ParserTrees.ForRestBuilds | src/parser/parser.c:645-673 | after the update clause, `{` and the body block give a for node; a missing `{` gives NULL and one error |
| ParserTrees.ForStart | src/parser/parser.c:620-673 | parse_for_loop sets INSIDE_LOOP before `(` and clears it after a built loop only when it set it |
| ParserTrees.ForBuilds | src/parser/parser.c:620-673 | `for (init cond update) {body}` is a for node over the init clause, the condition clause's expression, the update clause and the body, all parsed with INSIDE_LOOP set, which is afterwards what it was; a missing `(` or `{` gives NULL and one error |
| ParserTrees.BinaryBuilds | src/parser/parser.c:675-690 | a binary operator builds an infix node over the left operand and the right operand parsed at the operator's precedence, which ends before any operator binding no tighter (left grouping) |
| ParserTrees.CallBuilds | src/parser/parser.c:718-736 | `f(...)` is a call of f with the arguments in order (none for `()`), or NULL with one error when `)` is missing |
| ParserTrees.IndexBuilds | src/parser/parser.c:738-755 | `a[i]` is an index node over a and i parsed at LOWEST, ending on `]`; a missing `]` gives NULL and one error |
| ParserTrees.ReassignmentBuilds | src/parser/parser.c:757-772 | `x = v` after a name is a reassignment of that name to v parsed at LOWEST; after anything else the assert aborts |
| ParserExamples.BinaryBelowPrefix | src/parser/parser.c:39-59 | every binary operator binds above LOWEST and below PREFIX |
| ParserExamples.PrefixChainParses | src/parser/parser_test.c:243-250 | "p a o b" with a prefix operator parses without errors into ((p a) o b) |
| ParserExamples.NegTimesParses | src/parser/parser_test.c:243-246 | "-a * b" parses into ((-a) * b) |
| ParserExamples.IdentifierAlone | src/parser/parser.c:150-171 | an identifier not followed by a tighter operator is parsed by itself |
| ParserExamples.ChainParses | src/parser/parser.c:150-171 | "a o1 b o2 c" parses left-nested exactly when o1 binds at least as tightly as o2, right-nested otherwise |
| ParserExamples.SumChainParses | src/parser/parser_test.c:251-254 | "a + b + c" parses into ((a + b) + c) |
| ParserExamples.QuotientChainParses | src/parser/parser_test.c:267-270 | "a + b / c" parses into (a + (b / c)) |
| ParserExamples.StmtPrints | src/ast/ast.c:156-214 | a program of one expression statement prints as the expression followed by ";\n" |
| ParserExamples.NegTimesPrints | src/ast/ast.c:169-189 | ((-a) * b) prints as "((-a) * b);\n" |
| ParserExamples.SumLeftPrints | src/ast/ast.c:178-189 | ((a + b) + c) prints as "((a + b) + c);\n" |
| ParserExamples.SumQuotientPrints | src/ast/ast.c:178-189 | (a + (b / c)) prints as "(a + (b / c));\n" |
| ParserExamples.LoneControlOutside | src/parser/parser.c:191-242 | outside a loop a lone `break` or `continue` parses into no statement and one error |
| ParserExamples.LoneControlInside | src/parser/parser.c:200-242 | with INSIDE_LOOP set it is the one statement, without errors |
| ParserExamples.BreakOutsideLoop | src/parser/parser.c:222-242 | "break" outside a loop gives "Illegal break statement" and no statement |
| ParserExamples.BreakInsideLoop | src/parser/parser.c:222-242 | "break" inside a loop is a break statement |
| ParserExamples.EndlessForParses | src/parser/parser.c:620-673 | "for (;;) { }" parses into a for loop with no clauses and an empty body, without errors, INSIDE_LOOP clear afterwards |
| ParserExamples.BadParamsParse | src/parser/parser.c:426-481 | "fn(a b) {}" gives no expression after one "expected )" error |
| ParserExamples.BadParamsAsWritten | src/parser/parser.c:447-481 | as written "fn(a b) {}" records a second error about `{` and aborts in array_free |
| SymbolTable.FlatDefine | src/compiler/symbol_table.c:22-33 | symbol_define as written: the symbol gets the next index and GLOBAL scope, is stored under its name, the count grows by one and every other name keeps its symbol |
| SymbolTable.FlatResolve | src/compiler/symbol_table.c:35-37 | symbol_resolve finds a symbol exactly when the name was defined |
| SymbolTable.FlatDefineAll | src/compiler/symbol_table.c:22-33 | defining a list of names yields one symbol per name |
| SymbolTable.FlatDefineAllIsGlobal | src/compiler/symbol_table.c:22-33 | as written the i-th name defined is GLOBAL with index i, whatever the nesting |
| SymbolTable.FlatResolveAfterDefine | src/compiler/symbol_table.c:22-37 | a name resolves to the symbol its define returned |
| SymbolTable.FlatResolveUndefined | src/compiler/symbol_table.c:35-37 | a name never defined resolves to NULL |
| SymbolTable.FlatNoOtherKeys | src/compiler/symbol_table.c:22-33 | after a series of defines the store holds exactly the defined names |
| SymbolTable.Table.constructor | src/compiler/symbol_table.c:7-15 | new_symbol_table: an empty store and no definitions |
| SymbolTable.Table.Define | src/compiler/symbol_table.c:22-33 | the object's new state and the returned symbol are those of `FlatDefine` |
| SymbolTable.Table.Resolve | src/compiler/symbol_table.c:35-37 | the lookup returns what `FlatResolve` gives and changes nothing |
| SymbolTable.WithTop | src/compiler/compiler.c:679-688 | replacing the current table leaves every outer table unchanged |
| SymbolTable.Enclose | src/compiler/compiler.c:679 | new_enclosed_symbol_table pushes an empty table whose outer is the current chain |
| SymbolTable.Outer | src/compiler/compiler.c:686-688 | leaving a scope makes the outer chain current again |
| SymbolTable.Define | src/compiler/symbol_table_test.c:12-47 | a define takes the current table's next index, GLOBAL in the outermost table and LOCAL elsewhere, stores the symbol and leaves the outer tables and the free list alone |
| SymbolTable.DefineBuiltin | src/compiler/compiler.c:34-37 | a builtin is stored in BUILTIN scope with its table index and is not counted as a definition |
| SymbolTable.DefineFree | src/compiler/compiler.c:467-470 | capturing appends the original symbol to the free list and shadows the name with a FREE symbol at that position, without counting a definition |
| SymbolTable.Resolve | src/compiler/compiler.c:516-545 | resolution keeps the depth of the chain |
| SymbolTable.ResolveAfterDefine | src/compiler/symbol_table_test.c:49-101 | a defined name resolves to its symbol and nothing changes |
| SymbolTable.ResolveUndefined | src/compiler/symbol_table_test.c:49-101 | a name no table defines resolves to NULL and nothing is captured |
| SymbolTable.ResolveKeepsCounts | src/compiler/symbol_table_test.c:103-159 | resolving never changes a definition count or removes a name, and never touches the global table |
| SymbolTable.ResolveGlobalFromAnyDepth | src/compiler/symbol_table_test.c:161-192 | an unshadowed global or builtin symbol is found unchanged from every depth and nothing is captured |
| SymbolTable.LeaveEnclose | src/compiler/compiler.c:679-688 | entering and then leaving a scope gives back the chain |
| SymbolTable.ResolveCapturesLocal | src/compiler/symbol_table_test.c:103-159 | a local of the enclosing function becomes free symbol 0 of the nested one, the free list records the original local, and the outer tables are unchanged |
| SymbolTable.DefineExample | src/compiler/symbol_table_test.c:12-47 | test_define: globals a, b get 0 and 1; each enclosed table restarts at LOCAL 0, 1 |
| SymbolTable.FlatDefineExample | src/compiler/symbol_table_test.c:12-47 | as written the third name is GLOBAL 2 where the test expects LOCAL 0 |
| SymbolTable.BuiltinExample | src/compiler/symbol_table_test.c:161-192 | builtins defined in the global table resolve as BUILTIN with their index from any depth |
| SymbolTable.NestShape | src/compiler/symbol_table_test.c:161-192 | `depth` enclosings add `depth` empty tables above the original chain |
| Compiler.AddConstant | src/compiler/compiler.c:78-81 | the object is appended to the constant pool and its index is the pool's old length; scopes and tables are untouched |
| Compiler.Emit | src/compiler/compiler.c:83-113 | the encoded instruction is appended to the current scope only, its offset is the old length, the last-instruction record names it and the previous record takes the old last |
| Compiler.RemoveLastPop | src/compiler/compiler.c:158-162 | the current scope loses exactly its final byte and the last record is restored from the previous one; the enclosing scopes are untouched |
| Compiler.ReplaceInstruction | src/compiler/compiler.c:164-168 | the bytes at the position are overwritten by the new instruction, the length and every byte outside that window are unchanged |
| Compiler.ChangeOperand | src/compiler/compiler.c:170-176 | the instruction at the offset is re-encoded with the new operand over its old bytes, keeping its opcode; everything before and after stays as it was |
| Compiler.EnterScope | src/compiler/compiler.c:677-680 | a fresh empty scope is pushed and the symbol table is enclosed in a new level |
| Compiler.LeaveScope | src/compiler/compiler.c:682-691 | the innermost scope's instructions are returned, that scope is popped and the symbol table returns to its outer level |
| Compiler.LeaveEnter | src/compiler/compiler.c:677-691 | leaving a scope just entered restores the compiler exactly and yields no instructions |
| Compiler.LoadSymbol | src/compiler/compiler.c:115-135 | one get instruction is appended, chosen by the symbol's scope (global, local, builtin, free), and it is not a pop |
| Compiler.LoadSymbols | src/compiler/compiler.c:474-476 | the captured symbols are loaded in order, only appending to the current scope |
| Compiler.DefineParams | src/compiler/compiler.c:444-448 | each parameter is defined in the innermost table; scopes and constants are untouched |
| Compiler.DefineBuiltins | src/compiler/compiler.c:34-37 | every builtin name is registered in the table without adding a level |
| Compiler.NewCompiler | src/compiler/compiler.c:26-45 | a new compiler has no constants, one empty scope, a single (global) table level and is not inside a void expression |
| Compiler.InfixOp | src/compiler/compiler.c:234-282 | an operator maps to a real opcode or to the unknown-operator error |
| Compiler.OperatorTable | src/compiler/compiler.c:234-282 | the full operator table: the two-character operators are matched first, then the first character decides; `<` and `=` are unknown |
| Compiler.LogicalOperators | src/compiler/compiler.c:253-277 | the logical and and or operators compile to the bitwise OP_BIT_AND and OP_BIT_OR, because only their first character is looked at |
| Compiler.PrefixOp | src/compiler/compiler.c:316-327 | `!` and `-` map to OP_BANG and OP_MINUS, anything else to the unknown-operator error |
| Compiler.CompileExpr | src/compiler/compiler.c:549-646 | a successful compilation only appends to the current scope (enclosing scopes are untouched), appends at least one byte and never ends on a pop |
| Compiler.CompileConstant | src/compiler/compiler.c:555-560 | a literal becomes the next constant and one OP_CONSTANT naming its index |
| Compiler.CompileIdentifier | src/compiler/compiler.c:571-580 | compilation succeeds exactly when the name resolves, and fails with the unknown-identifier error otherwise |
| Compiler.CompilePrefix | src/compiler/compiler.c:329-338 | the operand then the operator, only appending to the current scope |
| Compiler.CompileArray | src/compiler/compiler.c:589-600 | the elements in order then OP_ARRAY, only appending to the current scope |
| Compiler.CompileIndex | src/compiler/compiler.c:603-616 | the indexed value, the index, then OP_INDEX, only appending to the current scope |
| Compiler.CompileCall | src/compiler/compiler.c:619-639 | the callee, the arguments in order, then OP_CALL, only appending to the current scope |
| Compiler.CompileExprs | src/compiler/compiler.c:591-598 | a list of expressions compiled left to right stops at the first error and otherwise only appends |
| Compiler.CompileInfix | src/compiler/compiler.c:285-314 | both operands then the operator, only appending to the current scope |
| Compiler.LessIsSwappedGreater | src/compiler/compiler.c:287-299 | `a < b` compiles to exactly the code of `b > a` |
| Compiler.CompileHash | src/compiler/compiler.c:419-434 | the pairs then OP_HASH with twice the pair count, only appending to the current scope |
| Compiler.CompilePairs | src/compiler/compiler.c:399-417 | each pair's key then value, stopping at the first error, only appending |
| Compiler.DropLastPop | src/compiler/compiler.c:367-369 | a trailing pop is removed and nothing else is; without one the compiler is unchanged |
| Compiler.CompileIf | src/compiler/compiler.c:353-397 | a successful compilation only appends to the current scope and never ends on a pop |
| Compiler.IfLayout | src/compiler/compiler.c:353-397 | after the condition's code come OP_JMP_IF_FALSE to just past the consequence's OP_JMP, and that OP_JMP targets the end of the whole expression; without an else the OP_JMP is followed by the single OP_NULL |
| Compiler.CompileAlternative | src/compiler/compiler.c:375-387 | the else block with its trailing pop dropped, or OP_NULL when there is none; only appends |
| Compiler.CompileBlock | src/compiler/compiler.c:340-351 | the statements in order, stopping at the first error; only appends, and a block that appends nothing leaves the compiler unchanged |
| Compiler.CompileStmt | src/compiler/compiler.c:190-232 | a statement only appends to the current scope and leaves a pop record that describes the final byte; break and continue are an abort |
| Compiler.LetLayout | src/compiler/compiler.c:205-216 | a let compiles its value with the name already defined and ends with OP_SET_GLOBAL (outermost level) or OP_SET_LOCAL (inside a function) of the slot the definition took |
| Compiler.OneExprProgram | src/compiler/compiler.c:190-203 | an expression statement whose value is not void is its code followed by one OP_POP |
| Compiler.CompileProgram | src/compiler/compiler.c:178-188 | the statements in order, stopping at the first error; only appends |
| Compiler.Epilogue | src/compiler/compiler.c:455-465 | the function body's closing: only its final instruction may change, constants and tables are untouched |
| Compiler.ReplaceLastPop | src/compiler/compiler.c:455-461 | the trailing pop becomes OP_RETURN_VALUE |
| Compiler.EpilogueTrailingPop | src/compiler/compiler.c:455-465 | a body ending in an expression ends in OP_RETURN_VALUE alone with the corrected epilogue, and in OP_RETURN_VALUE, OP_RETURN as written |
| Compiler.EpilogueEmptyBody | src/compiler/compiler_test.c:872-890 | an empty body compiles to the single OP_RETURN, both as written and corrected |
| Compiler.CompileFunction | src/compiler/compiler.c:436-485 | a successful compilation only appends to the enclosing scope and never ends on a pop |
| Compiler.CloseFunction | src/compiler/compiler.c:467-485 | leaving the function's scope ends the enclosing code with OP_CLOSURE |
| Compiler.FnLayout | src/compiler/compiler.c:436-485 | the epilogue-closed body, its number of slots and of parameters become the newest constant, and the enclosing code ends with OP_CLOSURE of that constant's index and the number of captured variables |
| Compiler.EmptyFunctionExample | src/compiler/compiler_test.c:872-890 | `fn() { }` adds the constant holding OP_RETURN alone and compiles to OP_CLOSURE 0 0 |
| Compiler.CompileWhile | src/compiler/compiler.c:487-512 | a successful compilation only appends, never ends on a pop and marks the expression void |
| Compiler.WhileLayout | src/compiler/compiler.c:487-512 | with the corrected back-jump target: the condition's code, OP_JMP_IF_FALSE to the end, and a closing OP_JMP back to the first byte of the condition |
| Compiler.LoopStartFresh | src/compiler/compiler.c:488-489 | on a new compiler the as-written back-jump target is 1 while the condition starts at 0 (also line 502) |
| Compiler.LoopStartAfterWide | src/compiler/compiler.c:488-489 | after an instruction with a two-byte operand the as-written target lands on that instruction's operand, two bytes before the condition (also line 502) |
| Compiler.CompileReassignment | src/compiler/compiler.c:514-547 | an unknown name is the unknown-identifier error; otherwise the value's code then a set and a get of the symbol, only appending |
| Compiler.SetAndGet | src/compiler/compiler.c:528-541 | the set and get pair for a global, local or free symbol appends code that does not end on a pop |
| Compiler.IfTrueTenExpr | src/compiler/compiler_test.c:478-505 | `if (true) { 10 }` compiles to TRUE, JMP_IF_FALSE 10, CONSTANT 0, JMP 11, NULL |
| Compiler.IfExample | src/compiler/compiler_test.c:478-505 | `if (true) { 10 }; 3333;` compiles to the sixteen bytes and two constants the test lists |
| Compiler.TopReturnExample | src/compiler/compiler.c:217-225 | a top-level `return 1;` compiles to OP_CONSTANT 0 then OP_RETURN_VALUE, with 1 as the only constant |
| Compiler.LessThanExample | src/compiler/compiler_test.c:385-400 | `1 < 2` compiles the right operand first: constants 2 then 1, then OP_GREATER and OP_POP |
| CompilerState.Compiler.constructor | src/compiler/compiler.c:26-45 | a new compiler object holds exactly the state of the functional new compiler |
| CompilerState.Compiler.AddConstant | src/compiler/compiler.c:78-81 | appending to the constant array in place yields the state and index the functional add_constant gives |
| CompilerState.Compiler.AddInstruction | src/compiler/compiler.c:83-90 | the byte loop appends the instruction to the current scope's array and returns its offset |
| CompilerState.Compiler.SetLastInstruction | src/compiler/compiler.c:92-98 | the last record becomes the new instruction and the previous record the old last, nothing else changes |
| CompilerState.Compiler.Emit | src/compiler/compiler.c:100-109 | the in-place emit agrees with the functional Emit, state and offset |
| CompilerState.Compiler.RemoveLastPop | src/compiler/compiler.c:158-162 | shortening the array in place agrees with the functional RemoveLastPop |
| CompilerState.Compiler.ReplaceInstruction | src/compiler/compiler.c:164-168 | the byte-by-byte overwrite loop agrees with the functional ReplaceInstruction |
| CompilerState.Compiler.ChangeOperand | src/compiler/compiler.c:170-176 | patching the operand in place agrees with the functional ChangeOperand |
| CompilerState.Compiler.EnterScope | src/compiler/compiler.c:677-680 | pushing the scope and the table level in place agrees with the functional EnterScope |
| CompilerState.Compiler.LeaveScope | src/compiler/compiler.c:682-691 | popping in place returns the same instructions and reaches the same state as the functional LeaveScope |
| CompilerState.Compiler.CompileProgram | src/compiler/compiler.c:178-188 | the statement loop reports no error exactly when the functional compilation succeeds, reports its error otherwise, and on success holds its state |
| Object.TypeName | src/object/object.c:7-11 | a kind's name in messages is its entry in the twelve-name table (the number kind is called INTEGER_OBJ there) |
| Object.HashKeyOf | src/object/object.c:127-149 | exactly strings, booleans and numbers have a key, and it is the one get_hash_key computes |
| Object.HashKeyFacts | src/object/object.c:131-137 | true hashes to 2 and false to 0 (value shifted by BOOLEAN_OBJ), a number to its truncation, so 0 and false, 2 and true, 2.75 and 2 share a key |
| Object.NumberKeyIsTruncation | src/object/object.c:135-137 | within the int32 range a number's key is its value truncated toward zero |
| Object.UnhashableKinds | src/object/object.c:139-149 | a kind has no key exactly when it is not a string, boolean or number; a string's key is its text |
| Object.MinusOneLooksUnhashable | src/object/object.c:139-149 | the number -1 gets the key -1 that also marks an array or function as unhashable |
| Object.InspectAll | src/object/object.c:71-77 | each element is printed on its own, in order |
| Object.Buffer.constructor | src/object/object.c:68-69 | a new text buffer is empty |
| Object.Buffer.InspectArray | src/object/object.c:68-79 | the loop appends "[", the printed elements separated by ", " (none after the last), then "]" |
| Object.InspectArrayText | src/object/object.c:68-79 | an array of printable elements prints as "[" + the elements joined by ", " + "]" |
| Object.InspectScalars | src/object/object.c:20-32 | true, false, null and a string print as "true", "false", "null" and the string's own text (also lines 60-62) |
| Object.InspectArrayExample | src/object/object.c:13-18 | `[1, 2]` prints as "[1, 2]", numbers as their `%d` integer (also lines 68-79) |
| Builtins.CheckArgsLen | src/object/builtins.c:8-18 | an error exactly when the count differs from the expected one, with the message naming both counts |
| Builtins.UnsupportedArgError | src/object/builtins.c:20-30 | an error exactly when the expected kind is negative or differs from the argument's kind, naming the builtin and the kind |
| Builtins.WrongCountIsError | src/object/builtins.c:8-18 | every builtin but puts answers a wrong argument count with the wrong-number-of-arguments error naming the counts (two for push and shift, one for the rest) (also lines 32-36, 74-78, 96-100, 122-126, 165-169) |
| Builtins.LenCases | src/object/builtins.c:32-50 | len of a string is its length, of an array its element count, and any other argument is the unsupported-argument error |
| Builtins.EmptyArrayGivesNull | src/object/builtins.c:89-91 | first, last and rest of an empty array are null (also lines 110-112, 179-181) |
| Builtins.NonArrayIsError | src/object/builtins.c:82-85 | first, last, rest, push and shift of a non-array are the unsupported-argument error; push and shift both report the name "push" (also lines 104-107, 133-136, 174-177) |
| Builtins.PushThenLast | src/object/builtins.c:122-159 | push gives an array one longer that keeps the old elements in order and whose last element is the pushed one |
| Builtins.ShiftThenFirstAndRest | src/object/builtins.c:122-159 | shift puts the element in front: first of the result is it and rest of the result is the old array (also lines 165-195) |
| Builtins.FirstAndRest | src/object/builtins.c:74-94 | for a non-empty array, first followed by rest's elements rebuilds the array (also lines 165-195) |
| Builtins.AppendBuild | src/object/builtins.c:122-159 | the copying loops build exactly the array the functional push or shift describes |
| Builtins.RestBuild | src/object/builtins.c:165-195 | the copying loop from index 1 builds exactly the array the functional rest describes |
| Builtins.IndexOfName | src/object/builtins.c:257-265 | the index of the first table entry with that name, and none exactly when no entry has it |
| Builtins.FirstMatch | src/object/builtins.c:258-262 | the first matching position from a start index, or none exactly when no later entry matches |
| Builtins.GetBuiltinByName | src/object/builtins.c:257-265 | the search loop finds exactly the first entry with the name |
| Builtins.NameIndices | src/object/builtins.c:197-255 | the table order: len, puts, first, last, push, shift, rest at 0 to 6, and "map" is not there |
| Builtins.LenExamples | src/vm/vm_test.c:474-481 | `len("four")` is 4, `len("")` 0, `len([1, 2, 3])` 3, two arguments and a number argument are errors |
| Builtins.ArrayExamples | src/vm/vm_test.c:473 | first, last, rest of `[1, 2, 3]` are 1, 3 and `[2, 3]`; `push([], 1)` is `[1]`; `push(1, 1)` is an error (also lines 482-499) |
| Builtins.ArgsLenMessageExample | src/vm/vm_test.c:478-479 | the count message reads "wrong number of arguments: Expected 1 got 2" |
| Builtins.UnsupportedNumberMessage | src/object/builtins.c:20-30 | a number argument is reported under the table's name INTEGER_OBJ |
| Evaluator.NewEnvironment | src/environment/environment.c:6-17 | a new environment heap holds exactly one store, and it is empty; C leaves its `outer` field unset and the model gives it none (see Left out) |
| Evaluator.Enclose | src/evaluator/evaluator.c:663-666 | an enclosed environment is a fresh empty store appended to the heap whose outer link is the given environment; its index is the old heap size |
| Evaluator.EnvSet | src/environment/environment.c:23-27 | only the named store changes: a value is bound to the name, a NULL value leaves the name absent, and every other store and every outer link stay as they were |
| Evaluator.Lookup | src/environment/environment.c:19-21 | a name bound in the environment's own store is found there, before any outer environment |
| Evaluator.Ancestor | src/evaluator/evaluator.c:696-704 | the environment reached after `level` outer steps is inside the heap, and zero steps is the environment itself |
| Evaluator.ArrayElement | src/evaluator/evaluator.c:468-490 | an index inside 0..len-1 gives that element, and any index below 0 or above len-1 gives NULL |
| Evaluator.Objects | src/evaluator/evaluator.c:404-408 | the argument objects handed to a builtin exist exactly when no argument pointer is NULL, and then they are the objects behind the pointers, in order; a NULL argument gives none (see Left out) |
| Evaluator.EvalExpr | src/evaluator/evaluator.c:809-844 | evaluating an expression only ever adds environments to the heap; existing indices stay valid |
| Evaluator.EvalStmt | src/evaluator/evaluator.c:846-906 | evaluating a statement only ever adds environments to the heap |
| Evaluator.EvalBlock | src/evaluator/evaluator.c:42-55 | evaluating a block only ever adds environments to the heap |
| Evaluator.EvalList | src/evaluator/evaluator.c:362-380 | the argument list yields one pointer per expression, or the first error alone; the heap only grows |
| Evaluator.EvalProgram | src/evaluator/evaluator.c:57-76 | running a program only ever adds environments to the heap |
| EvaluatorProperties.BlockAppend | src/evaluator/evaluator.c:42-55 | a block stops at the first return value, error, continue or break: statements appended after it are never run, otherwise they run in the environments it left |
| EvaluatorProperties.BlockLast | src/evaluator/evaluator.c:42-55 | when no statement interrupts, a block's result is its last statement's result |
| EvaluatorProperties.TopAppend | src/evaluator/evaluator.c:57-76 | a program stops at the first return value or error (continue and break do not stop it); later statements are not run |
| EvaluatorProperties.ProgramReturns | src/evaluator/evaluator.c:62-67 | a top-level return gives the value it wraps, NULL included, whatever statements follow |
| EvaluatorProperties.ProgramFails | src/evaluator/evaluator.c:70-72 | a top-level error is the program's result, whatever statements follow |
| EvaluatorProperties.BangTable | src/evaluator/evaluator.c:94-105 | `!` gives true exactly for false, NULL and the number 0, and false for everything else |
| EvaluatorProperties.DoubleBang | src/evaluator/evaluator.c:94-105 | `!!x` is true exactly when x is not false, NULL or 0 |
| EvaluatorProperties.BangNullDisagreesWithTruthy | src/evaluator/evaluator.c:97-98 | `!` treats obj_null as false while is_truthy treats it as true (also lines 310-316) |
| EvaluatorProperties.MinusCases | src/evaluator/evaluator.c:107-125 | `-` negates exactly the numbers (twice gives the number back) and is the "unknown operator: -TYPE" error for anything else |
| EvaluatorProperties.PrefixEval | src/evaluator/evaluator.c:234-253 | a prefix expression passes an operand's error through, applies `!` or `-`, and otherwise gives "unknown operator: OPTYPE" |
| EvaluatorProperties.InfixEval | src/evaluator/evaluator.c:255-308 | the right operand is evaluated before the left; the left operand's error wins over the right's; otherwise the two objects are combined |
| EvaluatorProperties.TypeMismatch | src/evaluator/evaluator.c:280-307 | operands of different types, unless one is NULL under a logic or equality operator, give "type mismatch: L OP R" |
| EvaluatorProperties.SameTypeUnknown | src/evaluator/evaluator.c:302-307 | same-type operands that are not numbers, strings or booleans give "unknown operator: L OP R" |
| EvaluatorProperties.StringInfix | src/evaluator/evaluator.c:214-232 | `+` concatenates two strings and every other operator on strings is an unknown-operator error |
| EvaluatorProperties.BooleanInfixCases | src/evaluator/evaluator.c:188-212 | booleans support exactly ==, !=, && and || with their truth tables; every other operator is an unknown-operator error |
| EvaluatorProperties.NumberComparisons | src/evaluator/evaluator.c:127-140 | <, >, == and != on numbers give the boolean of that comparison |
| EvaluatorProperties.NumberArithmetic | src/evaluator/evaluator.c:151-168 | +, -, * and / on numbers compute the arithmetic result; division by zero is not modelled |
| EvaluatorProperties.NumberUnknown | src/evaluator/evaluator.c:142-148 | any operator outside the arithmetic, bitwise and comparison ones gives "unknown operator: INTEGER_OBJ OP INTEGER_OBJ" (also lines 180-183) |
| EvaluatorProperties.NumberAnd | src/evaluator/evaluator.c:127-148 | `&&` on numbers is an unknown-operator error |
| EvaluatorProperties.LongOperators | src/evaluator/evaluator.c:169-180 | %, <<, & on numbers operate on the operands truncated to long, and % by zero is not modelled |
| EvaluatorProperties.IfEval | src/evaluator/evaluator.c:318-332 | an error condition is returned; a truthy condition (obj_null included) runs the consequence; NULL or false runs the alternative, or gives NULL when there is none |
| EvaluatorProperties.LookupPrefix | src/environment/environment.c:19-21 | environments added later to the heap do not change what an existing environment looks up |
| EvaluatorProperties.ResolveIffLookup | src/evaluator/evaluator.c:680-694 | resolving a name succeeds exactly when looking it up does |
| EvaluatorProperties.ResolveAncestor | src/evaluator/evaluator.c:680-704 | the level a name resolves to leads to an environment at or below the start that binds the name, and that binding is what lookup finds |
| EvaluatorProperties.LookupAfterSet | src/evaluator/evaluator.c:696-704 | setting the name in the environment it resolves to makes lookup find the new value |
| EvaluatorProperties.ReassignThenLookup | src/evaluator/evaluator.c:713-725 | after a reassignment of a declared name, looking the name up gives the new value |
| EvaluatorProperties.LetThenLookup | src/evaluator/evaluator.c:862-870 | after a let, the name is found with the new value in the current environment, at level 0 |
| EvaluatorProperties.BindParamsBinds | src/evaluator/evaluator.c:382-393 | each parameter (the last occurrence of a repeated name) is bound to its argument, other names and other environments keep their bindings |
| EvaluatorProperties.ClosureSees | src/evaluator/evaluator.c:382-393 | inside a call, a parameter denotes its argument and any other name denotes what it denoted where the function was defined (also lines 351-360) |
| EvaluatorProperties.CallEval | src/evaluator/evaluator.c:430-447 | a call evaluates the callee first, passes its error through, then evaluates the arguments in the environments it left |
| EvaluatorProperties.FinishCallCases | src/evaluator/evaluator.c:436-446 | an argument's error is the call's result; otherwise the function is applied to the argument values |
| EvaluatorProperties.ApplyCases | src/evaluator/evaluator.c:404-428 | a non-function gives "Not a function: FUNCTION_OBJ", a wrong argument count the arity error, a builtin its result, and a function its body's result in a new environment enclosed by the function's own, with a return value unwrapped |
| EvaluatorProperties.ArityMessageExample | src/evaluator/evaluator.c:418-423 | the arity error reads "Wrong parameter count: Expected 1 got 2" |
| EvaluatorProperties.WhileNonBoolean | src/evaluator/evaluator.c:604-613 | a while loop whose first condition is not a boolean gives "Loop condition should produce a boolean value" (also lines 623-628) |
| EvaluatorProperties.LoopTurnCases | src/evaluator/evaluator.c:630-657 | after a true condition and the body: a return value or break ends the loop with it, continue skips the update, anything else runs the update and goes round again |
| EvaluatorProperties.LoopEnds | src/evaluator/evaluator.c:630-660 | a condition that is not obj_true ends the loop with the last body result (uninitialised when the body never ran) |
| EvaluatorExamples.BangExamples | src/evaluator/evaluator_test.c:101-116 | `!true` is false, `!5` is false, `!!5` is true |
| EvaluatorExamples.IfExamples | src/evaluator/evaluator_test.c:118-148 | `if (1 > 2) { 10 }` gives NULL and `if (1) { 10 }` gives 10 |
| EvaluatorExamples.ReturnExample | src/evaluator/evaluator_test.c:150-164 | `9; return 2 * 5; 9` gives 10 |
| EvaluatorExamples.ReturnNullExample | src/evaluator/evaluator.c:846-860 | `return if (false) { 1 }; 9;` stops at the return and gives NULL |
| EvaluatorExamples.NestedReturnExample | src/evaluator/evaluator_test.c:160 | the inner return of a nested if ends the whole program with 10 |
| EvaluatorExamples.MismatchMessage | src/evaluator/evaluator_test.c:177-180 | `5 + true` is "type mismatch: INTEGER_OBJ + BOOLEAN_OBJ" |
| EvaluatorExamples.MismatchExample | src/evaluator/evaluator_test.c:181-184 | `5 + true; 5;` stops with the type mismatch error |
| EvaluatorExamples.MinusBooleanExample | src/evaluator/evaluator_test.c:185-188 | `-true` is "unknown operator: -BOOLEAN_OBJ" |
| EvaluatorExamples.UnknownOperatorExample | src/evaluator/evaluator_test.c:193-196 | `5; true + false; 5;` stops with "unknown operator: BOOLEAN_OBJ + BOOLEAN_OBJ" |
| EvaluatorExamples.OuterVariableLost | src/environment/environment.c:19-21 | env_get as written does not see a variable of the enclosing environment, which the intended lookup finds |
| EvaluatorExamples.ResolveLoops | src/evaluator/evaluator.c:680-694 | resolve_ident as written never ends for a name two levels out or absent from a chain of three, where the intended resolution finds level 2 or reports it absent |
| EvaluatorExamples.ArgumentErrorLost | src/evaluator/evaluator.c:436-444 | with the swapped memcpy an argument's error is lost and an uninitialised object results; intended, the error is the call's result |
| EvaluatorExamples.ArgumentsAgree | src/evaluator/evaluator.c:436-446 | without an argument error the call as written and as intended agree |
| EvaluatorExamples.EmptyArrayIndex | src/evaluator/evaluator.c:484-487 | `[][0]` reads past the end as written (the size_t `len - 1` wraps) and gives NULL as intended |
| EvaluatorExamples.ArrayElementAgrees | src/evaluator/evaluator.c:484-489 | for a non-empty array the written and intended indexing agree on every index |
| EvaluatorExamples.LoopNeverEntered | src/evaluator/evaluator.c:623-660 | `while (false) { 1 }` returns the uninitialised result, which the model counts as stuck |
| EvaluatorExamples.AddApplies | src/evaluator/evaluator.c:404-428 | applying `fn(a, b) { a + b }` to 2 and 3 gives 5 in a new environment binding a and b, enclosed by the global one |
| EvaluatorExamples.AddLookup | src/evaluator/evaluator.c:334-349 | a global name that is not a builtin evaluates to its binding |
| EvaluatorExamples.AddArguments | src/evaluator/evaluator.c:362-380 | the arguments `2, 3` evaluate in order and change no environment |
| EvaluatorExamples.AddCall | src/evaluator/evaluator.c:430-447 | `add(2, 3)` after `let add = …` gives 5 |
| EvaluatorExamples.CallExample | src/evaluator/evaluator.c:57-76 | the program `let add = fn(a, b) { a + b }; add(2, 3)` gives 5 (also lines 862-870) |
| EvaluatorState.Interpreter.constructor | src/environment/environment.c:6-17 | a new interpreter holds the new global environment |
| EvaluatorState.Interpreter.Block | src/evaluator/evaluator.c:42-55 | the statement loop returns exactly what the block specification gives and leaves the interpreter's environments in its final state |
| EvaluatorState.Interpreter.Program | src/evaluator/evaluator.c:57-76 | the statement loop returns exactly what the program specification gives, return values unwrapped |
| EvaluatorState.Interpreter.Loop | src/evaluator/evaluator.c:623-661 | the while loop returns exactly what the loop specification gives and keeps the environments it leaves |
| Vm.StaticHeap | src/object/constants.c:3-15 | the heap starts with the NULL placeholder and the shared obj_true, obj_false and obj_null, followed by the constants in order |
| Vm.NewVm | src/vm/vm.c:10-28 | a new machine has an empty stack and globals of NULL pointers, the constants in the heap, and one frame whose closure wraps the instructions in a function with no locals or parameters, with ip -1 and base 0 |
| Vm.SetIp | src/vm/vm.c:416-419 | the current frame's ip becomes the given value |
| Vm.Deref | src/vm/vm.c:47-68 | a pointer denotes an object exactly when it is neither NULL nor outside the heap |
| Vm.Alloc | src/object/object.h:112-124 | a new object goes at the end of the heap and its pointer is the old heap size; nothing else changes |
| Vm.StackTop | src/vm/vm.c:47-53 | the top is NULL for an empty stack and the slot below sp otherwise |
| Vm.BoolRef | src/object/constants.c:17-23 | a boolean result is always one of the two shared boolean objects |
| Vm.Materialize | src/vm/vm.c:241-263 | an element taken out of an array or hash is pushed as the shared boolean or null object when it is one, and as a new heap object otherwise |
| Vm.Values | src/vm/vm.c:201-211 | the objects behind a range of stack slots, in stack order; NULL in any slot of the range gives none (also lines 278-285) |
| Vm.ToSize | src/vm/vm.c:241-242 | the size_t conversion of an index is below 2^64 |
| Vm.VmHashKeyAsWritten | src/vm/vm.c:225-229 | as written, a key exists only when get_hash_key is not negative, and it is that key (also lines 252-256) |
| Vm.VmHashKey | src/vm/vm.c:225-229 | as intended, a key exists exactly for the hashable kinds, and it is get_hash_key's key (also lines 252-256) |
| Vm.HashFrom | src/vm/vm.c:214-238 | building the pairs fails only with VM_UNHASHABLE_OBJECT, for a key that has no hash key, or with Crash, for a NULL slot or one outside the stack |
| Vm.ExecHash | src/vm/vm.c:486-500 | when OP_HASH completes, the pointer it pushes is to a new hash, the one object it adds to the heap |
| Vm.ExecHashAsWritten | src/vm/vm.c:214-238 | as written OP_HASH moves the stack as ExecHash does, and exactly when it completes the pointer on top is the new hash, whose type field was never set |
| Vm.SizeSub | src/vm/vm.c:477-478 | `sp - n` as size_t: below 2^64 and equal to sp - n modulo 2^64 (also lines 490, 495) |
| Vm.ShortStackOverflows | src/vm/vm.c:473-499 | OP_ARRAY and OP_HASH with more operands than stack slots end with VM_STACK_OVERFLOW, since `sp - n` wraps above the stack |
| Vm.LastFrameReturn | src/vm/vm.c:532-546 | a return that has taken the last frame never lets the run go on; when sp has wrapped (the main frame's base pointer is 0) the result is VM_STACK_OVERFLOW with the machine unchanged |
| Vm.ExecIndexAsWritten | src/vm/vm.c:502-511 | as written OP_INDEX is undefined (Crash) exactly when ExecIndex is, or when the indexed pointer is a hash left without a type; with no such hash it is ExecIndex (also lines 265-275) |
| Vm.NegativeKeyRefused | src/vm/vm.c:225-229 | the number -5 is refused as a hash key as written though it has the key -5 |
| Vm.RunStops | src/vm/vm.c:341-351 | the run loop ends normally when ip has reached the last instruction, and the model stops when fuel is exhausted |
| Vm.RunSteps | src/vm/vm.c:341-637 | one turn of the loop executes the next instruction; a result other than VM_OK ends the run with it |
| VmProperties.PushOverflowOrTop | src/vm/vm.c:55-62 | a push overflows exactly when sp has reached STACK_SIZE, and then changes nothing; otherwise the value is the new top, sp grows by one and no other slot, global, frame or heap object changes |
| VmProperties.PopLeavesSlot | src/vm/vm.c:68 | a pop returns the top and only lowers sp, so the popped slot is what vm_last_popped_stack_elem reads (also line 641) |
| VmProperties.PushThenPop | src/vm/vm.c:55-68 | popping right after a push gives back the pushed pointer and the old sp |
| VmProperties.BangReplacesTop | src/vm/vm.c:160-176 | OP_BANG replaces the top with its negation and keeps sp |
| VmProperties.BangTable | src/vm/vm.c:160-176 | `!` maps obj_true to obj_false, obj_false and obj_null to obj_true, and every other pointer to obj_false |
| VmProperties.BangNegatesTruthiness | src/vm/vm.c:160-199 | for the shared objects and canonical ones, `!` gives the boolean opposite of is_truthy |
| VmProperties.BangOfFreshNull | src/vm/vm.c:160-199 | a null object that is not the shared obj_null is false to is_truthy but `!` also gives false, since `!` compares pointers |
| VmProperties.FirstFetch | src/vm/frame.c:3-9 | a new machine fetches instruction 0 first |
| VmProperties.JmpStep | src/vm/vm.c:416-419 | OP_JMP sets ip to the operand minus one, so the next fetch is the operand |
| VmProperties.JmpIfFalseStep | src/vm/vm.c:421-429 | OP_JMP_IF_FALSE pops the condition and falls through past its operand when it is truthy, and jumps to the operand otherwise |
| VmProperties.TruthyKinds | src/vm/vm.c:189-199 | is_truthy is false exactly for false and null |
| VmProperties.ArrayCollapsesTop | src/vm/vm.c:201-211 | OP_ARRAY replaces the top n slots by one new array holding their objects in stack order (also lines 473-484) |
| VmProperties.CallClosureArity | src/vm/vm.c:297-311 | a call fails with VM_WRONG_NUMBER_OF_ARGUMENTS exactly when the argument count differs from the parameter count, and then changes nothing; otherwise one frame based at the first argument is pushed and sp sits above the locals |
| VmProperties.ArrayIndexAgrees | src/vm/vm.c:241-249 | for a non-empty array the written and intended indexing agree on every index |
| VmProperties.EmptyArrayIndex | src/vm/vm.c:241-249 | indexing an empty array reads past its end as written, and pushes null as intended |
| VmProperties.ArrayIndexOutOfRange | src/vm/vm.c:241-249 | an index at or past the length, or a negative one, pushes null |
| VmProperties.ArrayIndexExamples | src/vm/vm_test.c:255-266 | `[1, 2, 3][99]` and `[1][-1]` push null and `[1, 2, 3][1]` pushes 2 |
| VmProperties.HashOfOneBuilds | src/vm/vm.c:486-500 | OP_HASH 2 over two pointers to the constant 1 pushes, at slot 0, a new hash holding the one pair 1: 1 |
| VmProperties.UntypedHashIndexCrashes | src/vm/vm.c:214-238 | `{1: 1}[1]` as written: the hash is built and pushed, the index is pushed, and OP_INDEX reads the unset type, which is undefined (also lines 265-275) |
| VmProperties.TypedHashIndexFindsValue | src/vm/vm_test.c:263-266 | `{1: 1}[1]` with the hash typed as intended: OP_INDEX leaves one slot, and it points to the number 1 |
| VmProperties.ConstantStep | src/vm/vm.c:356-364 | OP_CONSTANT pushes the constant named by its operand and skips the operand |
| VmProperties.PopStep | src/vm/vm.c:381-383 | OP_POP lowers sp by one and changes nothing else |
| VmProperties.LiteralStep | src/vm/vm.c:384-389 | OP_TRUE and OP_NULL push the shared obj_true and obj_null (also lines 431-435) |
| VmProperties.GreaterStep | src/vm/vm.c:124-139 | OP_GREATER on two numbers replaces them by the boolean of left > right (also lines 396-402) |
| VmProperties.LessThanPushes | src/vm/vm.c:356-364 | the two constants of `1 < 2`, compiled as `2 > 1`, are pushed in order |
| VmProperties.LessThanCompares | src/vm/vm.c:396-402 | comparing them leaves obj_true as the last popped value (also lines 381-383) |
| VmProperties.LessThanRun | src/vm/vm_test.c:157-161 | running the code of `1 < 2` ends normally with obj_true last popped |
| VmProperties.CompileAndRunLessThan | src/vm/vm_test.c:157-161 | compiling `1 < 2` and running the bytecode ends normally with obj_true last popped |
| VmProperties.IfRunTrue | src/vm/vm.c:384-389 | proof step of IfRun: the if's condition pushes obj_true |
| VmProperties.IfRunNoJump | src/vm/vm.c:421-429 | proof step of IfRun: a true condition is popped and execution falls through into the consequence |
| VmProperties.IfRunCondition | src/vm/vm.c:384-389 | proof step of IfRun: the condition step and the conditional jump together reach the consequence with an empty stack (also lines 421-429) |
| VmProperties.IfRunPushTen | src/vm/vm.c:356-364 | proof step of IfRun: the consequence pushes the constant 10 |
| VmProperties.IfRunJump | src/vm/vm.c:416-419 | proof step of IfRun: the consequence's OP_JMP skips the alternative |
| VmProperties.IfRunConsequence | src/vm/vm.c:356-364 | proof step of IfRun: the consequence and its jump leave 10 on the stack past the alternative (also lines 416-419) |
| VmProperties.IfRunRest | src/vm/vm.c:356-364 | proof step of IfRun: the rest of the program pops 10, pushes 3333 and pops it (also lines 381-383) |
| VmProperties.IfRun | src/compiler/compiler_test.c:478-505 | the bytecode of `if (true) { 10 }; 3333;` runs to the end with 3333 last popped |
| VmProperties.TopReturnOverflows | src/vm/vm.c:523-538 | the code of a top-level `return 1;` ends with VM_STACK_OVERFLOW, sp wrapped to SIZE_MAX (also lines 45, 356-364) |
| VmProperties.TopReturnFrom | src/vm/vm.c:523-538 | Proof step of TopReturnOverflows: OP_RETURN_VALUE in the main frame with one value on the stack ends the run with VM_STACK_OVERFLOW and sp at SIZE_MAX |
| VmProperties.ReturnValueStep | src/vm/vm.c:523-538 | the next instruction OP_RETURN_VALUE executes as ExecReturnValue, after ip is advanced |
| VmProperties.CompileAndRunTopReturn | src/compiler/compiler.c:217-225 | compiling `return 1;` and running the bytecode ends with VM_STACK_OVERFLOW, where the evaluator returns 1 (EvaluatorProperties.ProgramReturns) |
| VmProperties.CompileAndRunIf | src/vm/vm_test.c:189-193 | compiling `if (true) { 10 }; 3333;` and running the bytecode ends normally with 3333 last popped |
| VmState.VM.constructor | src/vm/vm.c:10-28 | a new machine's fields are exactly the state NewVm describes, over fresh stack and globals arrays |
| VmState.VM.SetIp | src/vm/vm.c:416-419 | the machine's new state is SetIp of the old one |
| VmState.VM.Advance | src/vm/vm.c:363 | the current frame's ip moves forward by k |
| VmState.VM.Alloc | src/object/object.h:112-124 | the object is appended to the heap and its new pointer returned |
| VmState.VM.Push | src/vm/vm.c:55-62 | the stack array and sp change as Push says, overflow included |
| VmState.VM.Pop | src/vm/vm.c:68 | sp is lowered and the old top returned |
| VmState.VM.Materialize | src/vm/vm.c:241-263 | the element becomes a pointer as Materialize says |
| VmState.VM.Values | src/vm/vm.c:201-211 | the loop over the stack range returns exactly the objects Values gives |
| VmState.VM.NoneStaysNone | src/vm/vm.c:201-211 | once a NULL slot is met, the whole range has no object list |
| VmState.VM.ExecBinary | src/vm/vm.c:70-122 | the binary operation changes the machine as ExecBinary says |
| VmState.VM.ExecComparison | src/vm/vm.c:124-158 | the comparison changes the machine as ExecComparison says |
| VmState.VM.ExecBang | src/vm/vm.c:160-176 | OP_BANG changes the machine as ExecBang says |
| VmState.VM.ExecMinus | src/vm/vm.c:178-187 | OP_MINUS changes the machine as ExecMinus says |
| VmState.VM.ExecJmp | src/vm/vm.c:416-419 | OP_JMP changes the machine as ExecJmp says |
| VmState.VM.ExecJmpIfFalse | src/vm/vm.c:421-429 | OP_JMP_IF_FALSE changes the machine as ExecJmpIfFalse says |
| VmState.VM.ExecSetGlobal | src/vm/vm.c:437-442 | OP_SET_GLOBAL changes the machine as ExecSetGlobal says |
| VmState.VM.ExecGetGlobal | src/vm/vm.c:443-451 | OP_GET_GLOBAL changes the machine as ExecGetGlobal says |
| VmState.VM.ExecSetLocal | src/vm/vm.c:452-459 | OP_SET_LOCAL changes the machine as ExecSetLocal says |
| VmState.VM.ExecGetLocal | src/vm/vm.c:460-472 | OP_GET_LOCAL changes the machine as ExecGetLocal says |
| VmState.VM.ExecArray | src/vm/vm.c:473-485 | OP_ARRAY changes the machine as ExecArray says |
| VmState.VM.BuildHash | src/vm/vm.c:214-238 | the loop over key and value slots returns exactly the pairs, or the error, HashFrom gives |
| VmState.VM.ExecHash | src/vm/vm.c:486-500 | OP_HASH changes the machine as ExecHash says |
| VmState.VM.ArrayIndex | src/vm/vm.c:241-249 | array indexing changes the machine as the intended ArrayIndex says |
| VmState.VM.HashIndex | src/vm/vm.c:252-263 | hash indexing changes the machine as HashIndex says |
| VmState.VM.ExecIndex | src/vm/vm.c:266-275 | OP_INDEX changes the machine as ExecIndex says (also lines 502-511) |
| VmState.VM.CallBuiltin | src/vm/vm.c:278-294 | a builtin call changes the machine as CallBuiltin says |
| VmState.VM.CallClosure | src/vm/vm.c:297-311 | a closure call changes the machine as CallClosure says |
| VmState.VM.ExecCall | src/vm/vm.c:313-324 | OP_CALL changes the machine as ExecCall says (also lines 513-522) |
| VmState.VM.PopFrame | src/vm/vm.c:45 | the current frame is removed |
| VmState.VM.LastFrameReturn | src/vm/vm.c:532-546 | the push after the last frame is gone changes the machine as LastFrameReturn says |
| VmState.VM.ExecReturnValue | src/vm/vm.c:523-538 | OP_RETURN_VALUE changes the machine as ExecReturnValue says |
| VmState.VM.ExecReturn | src/vm/vm.c:539-548 | OP_RETURN changes the machine as ExecReturn says |
| VmState.VM.ExecGetBuiltin | src/vm/vm.c:549-559 | OP_GET_BUILTIN changes the machine as ExecGetBuiltin says |
| VmState.VM.PushClosure | src/vm/vm.c:326-339 | push_closure changes the machine as PushClosure says |
| VmState.VM.ExecClosure | src/vm/vm.c:560-570 | OP_CLOSURE changes the machine as ExecClosure says |
| VmState.VM.CurrentFree | src/vm/vm.c:571-583 | the free variables read are those of the current frame's closure |
| VmState.VM.ExecGetFree | src/vm/vm.c:571-583 | OP_GET_FREE changes the machine as ExecGetFree says |
| VmState.VM.ExecSetFree | src/vm/vm.c:584-597 | OP_SET_FREE changes the machine as ExecSetFree says |
| VmState.VM.ExecLoop | src/vm/vm.c:606-620 | OP_LOOP changes the machine as ExecLoop says |
| VmState.VM.ExecContinue | src/vm/vm.c:621-625 | OP_CONTINUE changes the machine as ExecContinue says |
| VmState.VM.ExecBreak | src/vm/vm.c:626-632 | OP_BREAK changes the machine as ExecBreak says |
| VmState.VM.ExecConstant | src/vm/vm.c:356-365 | OP_CONSTANT changes the machine as ExecConstant says |
| VmState.VM.ExecStackOp | src/vm/vm.c:381-472 | the stack and variable opcodes change the machine as ExecStackOp says |
| VmState.VM.ExecOperatorOp | src/vm/vm.c:366-415 | the operator opcodes change the machine as ExecOperatorOp says |
| VmState.VM.ExecObjectOp | src/vm/vm.c:473-559 | the object and call opcodes change the machine as ExecObjectOp says |
| VmState.VM.ExecClosureOp | src/vm/vm.c:560-632 | the closure and loop opcodes change the machine as ExecClosureOp says |
| VmState.VM.Step | src/vm/vm.c:346-637 | one fetch-decode-execute turn changes the machine as Step says |
| VmState.VM.Turn | src/vm/vm.c:341-637 | one turn of run_vm keeps the machine on the path of the run specification, or stops with its outcome |
| VmState.VM.RunVm | src/vm/vm.c:341-639 | run_vm's loop ends in exactly the state and with exactly the result the run specification gives for the same fuel |
| VmState.VM.LastPopped | src/vm/vm.c:641 | the last popped element is the slot at sp |
| VmState.VM.StackTop | src/vm/vm.c:47-53 | the top returned is the one StackTop describes |
| FileFormat.Length16 | src/code/file_generator.c:44-49 | a length is written as two bytes, high byte first, that read back as the length modulo 2^16 |
| FileFormat.Bytes | src/code/file_generator.c:12-17 | each value is written as its low byte (fputc's conversion to unsigned char), so values that already fit a byte are written unchanged |
| FileFormat.Chars | src/code/file_generator.c:83-85 | a string's characters are written one code per character, in order |
| FileFormat.EncodeConstant | src/code/file_generator.c:51-66 | only numbers, strings and compiled functions can be written, and each begins with its type tag |
| FileFormat.EncodeConstantsSome | src/code/file_generator.c:51-66 | the constant pool can be written exactly when every constant in it can |
| FileFormat.EncodeConstantsFirst | src/code/file_generator.c:51-66 | the pool's bytes are the first constant's bytes followed by the rest's |
| FileFormat.EncodeConstantsSnoc | src/code/file_generator.c:51-66 | appending a constant appends its bytes |
| FileFormat.Encode | src/code/file_generator.c:19-34 | a file can be written exactly when its constants can, and it starts with the six bytes "MONKEY" |
| FileFormat.Getc | src/vm/file_loader.c:47-48 | fgetc gives a byte, or EOF exactly at the end of the file |
| FileFormat.Int8 | src/vm/file_loader.c:46-48 | storing fgetc's result in an int8_t keeps its low byte as a signed value; bytes below 0x80 are unchanged |
| FileFormat.Uint16Of | src/vm/file_loader.c:50-51 | two bytes make a 16-bit value, high byte first |
| FileFormat.Uint16At | src/vm/file_loader.c:46-51 | the two bytes at a position read as a big-endian 16-bit value |
| FileFormat.Getcs | src/vm/file_loader.c:57-60 | n successive fgetc calls give the n codes from the position on |
| FileFormat.CString | src/vm/file_loader.c:55-63 | the string kept is cut at the first NUL, and each character is a non-zero byte that was read |
| FileFormat.ParameterCount | src/vm/file_loader.c:82-83 | a parameter count below 0x80 reads back unchanged; read as intended, any byte does |
| FileFormat.ReadNumber | src/vm/file_loader.c:28-39 | a number constant reads eight bytes as a double; fewer than eight left is an error |
| FileFormat.ReadString | src/vm/file_loader.c:41-66 | a string constant is a two-byte length and that many characters, and reading moves past both |
| FileFormat.ReadFunction | src/vm/file_loader.c:68-99 | a function constant is a two-byte local count, a parameter byte, a two-byte instruction count and the instructions |
| FileFormat.ReadLoop | src/vm/file_loader.c:101-129 | a loop constant is a two-byte local count, a two-byte instruction count and the instructions |
| FileFormat.ReadConstant | src/vm/file_loader.c:131-145 | the type tag picks the reader; an unknown tag is the unknown-constant error naming that tag, and a constant read always moves forward |
| FileFormat.ReadMany | src/vm/file_loader.c:147-156 | n constants are read in order, or the first error one of them gives |
| FileFormat.ReadConstants | src/vm/file_loader.c:147-156 | reading the pool gives exactly n constants or a constant's error |
| FileFormat.ReadManySnoc | src/vm/file_loader.c:151-153 | one more turn of the loop appends the next constant |
| FileFormat.ReadManyFail | src/vm/file_loader.c:151-153 | a constant that fails ends the whole read with its error |
| FileFormat.TopLevel | src/vm/file_loader.c:187-193 | the top-level instructions are what is read up to the stop, no more than the bytes that remain |
| FileFormat.Decode | src/vm/file_loader.c:158-199 | a file that loads has exactly as many constants as its header says |
| FileFormat.MagicOkIff | src/vm/file_loader.c:16-26 | the magic test passes exactly when the file starts with "MONKEY" |
| FileFormat.MagicAccepted | src/vm/file_loader.c:161-169 | loading refuses a file as not a Monkey binary exactly when it does not start with "MONKEY" |
| FileFormat.CountReadBack | src/vm/file_loader.c:171-176 | the constant count written is read back modulo 2^16 |
| FileFormat.HoldsGetc | src/vm/file_loader.c:47-48 | where the file holds given bytes, fgetc returns them |
| FileFormat.HoldsSplit | src/vm/file_loader.c:131-156 | bytes that hold two parts in sequence hold each part in turn |
| FileFormat.HoldsRest | src/vm/file_loader.c:187-193 | bytes that end the file are its remainder |
| FileFormat.CStringOfChars | src/vm/file_loader.c:55-63 | a string with no NUL reads back whole |
| FileFormat.InstructionsReadBack | src/vm/file_loader.c:94-96 | written instruction bytes read back unchanged |
| FileFormat.Length16ReadBack | src/vm/file_loader.c:46-51 | a written 16-bit length reads back unchanged |
| FileFormat.DispatchNumber | src/vm/file_loader.c:134-135 | the number tag reads a number constant |
| FileFormat.DispatchString | src/vm/file_loader.c:136-137 | the string tag reads a string constant |
| FileFormat.DispatchFunction | src/vm/file_loader.c:138-139 | the compiled-function tag reads a function constant |
| FileFormat.DispatchLoop | src/vm/file_loader.c:140-141 | the compiled-loop tag reads a loop constant |
| FileFormat.StringReaderResult | src/vm/file_loader.c:41-66 | a length and its characters read as that string, past both |
| FileFormat.FunctionReaderResult | src/vm/file_loader.c:68-99 | the function fields read as the function with those locals, parameters and instructions |
| FileFormat.LoopReaderResult | src/vm/file_loader.c:101-129 | the loop fields read as the loop with those locals and instructions |
| FileFormat.NumberReadBack | src/code/file_generator.c:69-72 | a number written under a double layout that round-trips reads back as the same number |
| FileFormat.StringPartsReadBack | src/code/file_generator.c:74-86 | a written string reads back as its tag, its length and its characters |
| FileFormat.StringReadBack | src/code/file_generator.c:74-86 | a storable string (no NUL, shorter than 2^16) reads back as itself, just past its bytes |
| FileFormat.FunctionHeadReadBack | src/code/file_generator.c:88-100 | a written function's tag, local count, parameter byte and instruction count read back |
| FileFormat.FunctionRead | src/code/file_generator.c:88-100 | a written function reads back with its instructions and locals, and its parameter count as the loader converts it |
| FileFormat.FunctionReadBack | src/code/file_generator.c:88-100 | a storable function reads back as itself, just past its bytes |
| FileFormat.ConstantRoundTrip | src/code/file_generator.c:51-66 | every storable constant that can be written reads back as itself, just past its bytes |
| FileFormat.ReadManyReadsBack | src/vm/file_loader.c:147-156 | when each constant reads back in turn, the loop reads back the whole list |
| FileFormat.ConstantsReadEach | src/code/file_generator.c:51-66 | each written constant in the pool reads back in turn |
| FileFormat.ConstantsRoundTrip | src/code/file_generator.c:44-66 | the written constant pool reads back as the same list |
| FileFormat.TopLevelReadBack | src/vm/file_loader.c:187-193 | the top-level instructions read back unchanged as intended, and as written too when every byte is below 0x80 |
| FileFormat.RoundTrip | src/code/file_generator.c:19-34 | a file written from storable bytecode loads back, as intended, as the same bytecode |
| FileFormat.RoundTripAsWritten | src/vm/file_loader.c:158-199 | as written, the round trip holds when every instruction byte is below 0x80 |
| FileFormat.RoundTripIn | src/vm/file_loader.c:158-199 | the round trip in either reading, with the instruction bound each needs |
| FileFormat.DecodeEncoded | src/vm/file_loader.c:158-199 | a written file loads back with its constants unchanged and its instructions as the top-level read gives them |
| FileFormat.TopLevelSuffix | src/vm/file_loader.c:191-193 | the top-level read depends only on the bytes from the position on |
| FileFormat.LoopNotWritten | src/code/file_generator.c:60-65 | bytecode holding a compiled loop constant cannot be written |
| FileFormat.LoopPartsReadBack | src/vm/file_loader.c:101-129 | a loop constant's tag, locals, count and instructions read back |
| FileFormat.LoopReadBack | src/vm/file_loader.c:101-129 | a loop constant reads back as itself |
| FileFormat.StringCutAtNul | src/vm/file_loader.c:55-63 | a string holding a NUL byte reads back cut at the NUL, though reading moves past all its bytes |
| FileFormat.TopLevelAsWritten | src/vm/file_loader.c:190-193 | as written, the top-level read stops at the first 0xFF byte, which equals EOF once stored in an int8_t, and keeps each byte before it sign-extended |
| FileFormat.TopLevelStopsAt | src/vm/file_loader.c:190-193 | instructions with a 0xFF byte lose everything from that byte on |
| FileFormat.TopLevelStopsAtFF | src/vm/file_loader.c:190-193 | a written program whose instructions hold 0xFF loads back, as written, cut at that byte |
| FileFormat.TopLevelSignExtendsBytes | src/vm/file_loader.c:190-193 | as written, instruction bytes of 0x80 or more read back as negative values |
| FileFormat.TopLevelSignExtends | src/vm/file_loader.c:190-193 | a written program whose instructions use bytes of 0x80 or more loads back, as written, with those bytes negative |
| FileFormat.ParametersSignExtend | src/vm/file_loader.c:82-83 | a parameter count of 0x80 or more loads, as written, as a huge size_t; as intended it is unchanged |
| FileFormatState.Writer.constructor | src/code/file_generator.c:19-25 | a new writer has written nothing |
| FileFormatState.Writer.WriteByte | src/code/file_generator.c:12-17 | one byte, the value's low byte, is appended |
| FileFormatState.Writer.MagicNumber | src/code/file_generator.c:36-42 | the loop appends the six magic bytes |
| FileFormatState.Writer.WriteLength | src/code/file_generator.c:45-49 | the two length bytes are appended |
| FileFormatState.Writer.WriteEach | src/code/file_generator.c:83-85 | the loop appends one byte per value, in order (also lines 109-111) |
| FileFormatState.Writer.WriteInstructions | src/code/file_generator.c:102-112 | the instruction count and the instruction bytes are appended |
| FileFormatState.Writer.WriteNumber | src/code/file_generator.c:69-72 | the tag and the eight bytes of the double are appended |
| FileFormatState.Writer.WriteString | src/code/file_generator.c:74-86 | the tag, the length and the characters are appended |
| FileFormatState.Writer.WriteFunction | src/code/file_generator.c:88-100 | the tag, locals, parameter byte and instructions are appended |
| FileFormatState.Writer.WriteConstant | src/code/file_generator.c:53-65 | it succeeds exactly for the constants that can be written, and then appends their encoding |
| FileFormatState.Writer.WriteConstants | src/code/file_generator.c:44-67 | it succeeds exactly when every constant can be written, and then appends the count and the pool's encoding |
| FileFormatState.Writer.SaveToFile | src/code/file_generator.c:19-34 | it succeeds exactly when the bytecode can be written, and the file then holds its encoding |
| FileFormatState.TestMagicNumber | src/vm/file_loader.c:16-26 | the check passes exactly when the first six bytes are "MONKEY" |
| FileFormatState.Reader.constructor | src/vm/file_loader.c:159 | a new reader is at the start of the file |
| FileFormatState.Reader.Getc | src/vm/file_loader.c:47 | one byte (or EOF) is read and the position moves by one |
| FileFormatState.Reader.ReadLength | src/vm/file_loader.c:46-51 | two bytes are read as a big-endian 16-bit value |
| FileFormatState.Reader.ReadEach | src/vm/file_loader.c:57-60 | the loop reads n codes in order (also lines 94-96) |
| FileFormatState.Reader.ReadNumber | src/vm/file_loader.c:28-39 | the number read and the new position are those ReadNumber gives |
| FileFormatState.Reader.ReadString | src/vm/file_loader.c:41-66 | the string read and the new position are those ReadString gives |
| FileFormatState.Reader.ReadFunction | src/vm/file_loader.c:68-99 | the function read and the new position are those ReadFunction gives |
| FileFormatState.Reader.ReadLoop | src/vm/file_loader.c:101-129 | the loop read and the new position are those ReadLoop gives |
| FileFormatState.Reader.ReadConstant | src/vm/file_loader.c:131-145 | the constant read and the new position are those ReadConstant gives |
| FileFormatState.Reader.ReadConstants | src/vm/file_loader.c:147-156 | the loop reads the list of constants ReadConstants gives |
| FileFormatState.Reader.ReadMagic | src/vm/file_loader.c:161-166 | six bytes are read and the result is the magic test |
| FileFormatState.Reader.ReadTopLevel | src/vm/file_loader.c:187-193 | the loop reads the top-level instructions TopLevel gives |
| FileFormatState.Reader.GetBytecode | src/vm/file_loader.c:158-199 | loading gives exactly what Decode gives for the file's bytes |

## Left out

- I/O, process control and printing glue are not part of this model. That covers the REPL, `main.c`, the file reader, the disassembler's driver and `puts`. It also covers the raw `FILE*` calls of the file writer and reader, which are modelled as byte sequences. `perror`/`exit` on a bad magic number becomes the `NotMonkeyBinary` error.
- File-mode lexing (the `FILE*` branches of `lexer.c`) is left out. Only string mode is modelled.
- Memory management is left out: the `free_*` functions, leaks and malloc-failure asserts. `DynArray.Array.Free` and `LinkedList.List.Free` model only the field resets.
- Floating point is left out. Numbers are exact reals, so `double` rounding, `strtof`'s single-precision rounding, infinities and NaN are not modelled. A division by zero, which yields an infinity or NaN in C, ends evaluation as `Stuck` in the interpreter and gives the `FloatingPoint` result in the VM. A `(long)` cast out of range, or a `%` or shift that C leaves undefined, ends evaluation as `Stuck` in the interpreter and as `Crash` in the VM. Raw number constants in the file format are 8 bytes read through an abstract `DoubleLayout`.
- Lexer.Lexer.ReadRun: the 100-character `MAX_LEN` buffers of the identifier, number and string readers are not modelled. A longer token overflows the buffer in C; here it is kept whole.
- Parser.Htoi: 32-bit `int` overflow in `htoi` is not modelled. Neither is overflow in `parse_binary_literal` or in its `1 << multiplier`. The model gives the exact value of any digit string.
- Ast.ProgramStr: these printers are weaker than the C. The printers format a number with `%ld` applied to a `double`, which is undefined behaviour; the model prints its `(long)` truncation. `block_to_string`, which C calls on a `Statement*`, is modelled on the block's statements. The `Ast.Printable` precondition leaves out the trees with NULL pointers (a failed sub-parse) on which the C printers crash.
- Hash iteration order is not modelled (`compiler.c:426`, `evaluator.c:591`). Pairs are compiled and built in source order, and a later equal key replaces an earlier one.
- Object.HashKeyOf: string keys are the string's text, not its `crc32`. So two different strings never collide here, and the `crc32` library is not part of this model.
- Builtins.Len: each `char` of the model stands for one byte of the C string, and the input is taken to hold only characters below 256. A character above that is one element here but several bytes in C. So `len`, the lexer's character classes (`Lexer.InClass`) and the 7-byte identifier buffer of `Ast.NewIdentifierAsWrittenTruncates` would count it differently.
- Evaluator.NewEnvironment: C's `new_environment` never initialises `outer` (`environment.c:6-17`). The model gives the global environment no outer one. So where `resolve_ident` (`evaluator.c:680-694`) misses a name in the global store and follows that uninitialised pointer, the model stops the search and reports the name as not found.
- Evaluator.EvalArrayLiteral: a NULL element ends evaluation as `Stuck`. `eval_array_literal` appends the NULL and carries on (`evaluator.c:449-465`). A NULL value comes from an if without an else whose condition is false, as in `[if (false) { 1 }]`.
- Evaluator.EvalPairs: a NULL value ends evaluation as `Stuck`. `iter_eval_hash_literal` stores it (`evaluator.c:562-575`), so C builds `{1: if (false) { 2 }}` where the model is Stuck.
- Evaluator.ApplyFunction: a NULL argument to a builtin ends evaluation as `Stuck`, through `Evaluator.Objects`. `apply_function` passes it on (`evaluator.c:404-408`), and the builtin's argument-count check answers before any dereference (`builtins.c:8-18`). So `len(1, if (false) { 1 })` gives "wrong number of arguments: Expected 1 got 2" in C and is Stuck here.
- Evaluator.Objects: any NULL pointer gives no objects at all, so a builtin never receives a NULL argument in the model (see Evaluator.ApplyFunction).
- Vm.HashFrom: a NULL value slot ends OP_HASH as `Crash`. `vm_build_hash` stores the NULL (`vm.c:221-233`). A NULL reaches the stack from an unset global, as in `let a = {1: a};`, because the compiler defines the name before it compiles the value (`compiler.c:205-216`).
- VmState.VM.BuildHash: as Vm.HashFrom, a NULL value slot ends the build as `Crash`.
- Vm.CallBuiltin: a NULL argument ends the call as `Crash`. `call_builtin_function` passes it to the builtin (`vm.c:278-294`), so C answers `let a = len(1, a);` with the argument-count error object.
- VmState.VM.CallBuiltin: as Vm.CallBuiltin, a NULL argument ends the call as `Crash`.
- Vm.ExecHash: the hash OP_HASH builds has its type set, as intended. `vm_build_hash` never sets it, and the run (`Vm.Run`) uses the intended instruction; the untyped hash is modelled by `Vm.ExecHashAsWritten` and `Vm.ExecIndexAsWritten` (see Findings).
- VmState.VM.ExecHash: as Vm.ExecHash, the machine builds a typed hash; the untyped one C builds appears only in the Findings row.
- Vm.VmHashKey: the VM's refusal of negative keys also refuses every string whose `int32` `crc32` is negative. With strings keyed by text, the model refuses neither.
- Object.TypeName: C reads past the end of the type-name table for the compiled-function, closure and loop kinds. The model gives the empty name there.
- Object.InspectAll: an error is rendered as "ERROR: " followed by its message and a newline, added after the text before it. C's `sprintf` writes it at the start of the buffer, over whatever the buffer already holds.
- Function names are not modelled: `fn->name` and the `symbol_define_function_name` calls of `compiler.c`. The syntax tree's function literal has no name field.
- Compiler.CompileStmt: `break` and `continue` inside compiled code end compilation as `Crash`, matching the C's "not implemented" assert. A `for` loop gives an unknown-operator error, as in the C.
- The fixed-size arrays `scopes[256]` in the compiler and `frames[]` in the VM are modelled as sequences. Overflowing them (C writes past the end) is not modelled. The VM's value stack keeps its `STACK_SIZE` bound and the overflow result.
- VmState.VM.ExecReturnValue: the free loop of OP_RETURN_VALUE (`vm.c:527-530`) is left out, because the model does not free objects. The `sp = base_pointer - 1` step is modelled, with the `size_t` wrap-around of `base_pointer - 1`. A return from the main frame (base pointer 0) wraps sp to SIZE_MAX and ends with VM_STACK_OVERFLOW, as in C. When the push after taking the last frame succeeds, C has no current frame left to read; the model keeps the frame and ends with `Crash` (`Vm.LastFrameReturn`).
- VmState.VM.ExecGetBuiltin: pushes a builtin object for the table entry. C pushes the address of a local copy on the C stack, so every builtin fetched aliases the last one fetched, and the pointer dangles after the case ends. That aliasing is not modelled.
- Arrays and hashes on the VM heap hold values, not pointers to other heap objects. So the model does not capture this pointer identity:
  - OP_EQUAL on two reads of the same element (`vm.c:150`) compares pointers in C;
  - the alias OP_SET_FREE's `memcpy` creates (`vm.c:594`);
  - `first`/`last` returning the element pointer itself (`builtins.c:93`, `builtins.c:114`).
- VmState.VM.ExecArray: `vm_build_array` copies NULL stack slots into the array (`vm.c:207-209`). The model turns a NULL slot into `Crash`.
- FileFormat.ReadNumber: a number constant cut short by the end of the file is the `ShortNumber` error. C's `fread` carries on with whatever bytes it got.
- FileFormat.ReadString: a string constant holding a NUL is cut at that NUL, as `new_string` does. C still records the length read in `str->len`, and the model's strings carry no separate length (see `FileFormat.StringCutAtNul`).
- Index reassignment (`evaluator.c:727-794`) is left out. The parser only builds a reassignment whose left side is an identifier (`parser.c:758` asserts it), so index reassignment cannot be reached.
- Evaluator.EvalExpr and VmState.VM.RunVm: both take a fuel bound. The evaluator reports `OutOfFuel` when it runs out, and the VM's run loop returns `None`. A C program that never ends has no result here.
- `new_enclosed_environment` and the external `hashmap` are not part of this model. Environments are a heap of finite maps with an outer link, following `environment.h`.
- `str_buf.c`, `append_to_buf` and the stale `evaluator/builtins/builtins.c` are not part of this model.
- Parser.ParseStatement: the mutually recursive parse functions state in their own contracts only how they change the parser state: the position only moves forward, errors are only appended, and the loop and crash flags change as the C changes them. The node each construct builds is stated by a lemma about that function, kept outside the recursive group so that the group stays cheap to verify. The lines below name those lemmas.
- Parser.ParseLet: its own contract states only how the parser state changes; the node it builds is stated by ParserTrees.LetBuilds.
- Parser.LetValue: its own contract states only how the parser state changes; the node it builds is stated by ParserTrees.LetBuilds.
- Parser.ParseReturn: its own contract states only how the parser state changes; the node it builds is stated by ParserTrees.ReturnBuilds.
- Parser.ParseExpressionStatement: its own contract states only how the parser state changes; the node it builds is stated by ParserTrees.ExpressionStatementBuilds.
- Parser.ParseBlock: its own contract states only how the parser state changes; the node it builds is stated by ParserTrees.BlockBuilds and ParserTrees.EmptyBlockBuilds.
- Parser.ParsePrefix: its own contract states only how the parser state changes; the node it builds is stated by ParserTrees.PrefixLeaves and the lemmas for each prefix construct below.
- Parser.ParsePrefixExpression: its own contract states only how the parser state changes; the node it builds is stated by ParserTrees.PrefixExpressionBuilds.
- Parser.ParseGrouped: its own contract states only how the parser state changes; the node it builds is stated by ParserTrees.GroupedBuilds.
- Parser.ParseIf: its own contract states only how the parser state changes; the node it builds is stated by ParserTrees.IfBuilds and ParserTrees.IfElseBuilds.
- Parser.IfBlocks: its own contract states only how the parser state changes; the node it builds is stated by ParserTrees.IfBlocksBuild.
- Parser.IfConsequence: its own contract states only how the parser state changes; the node it builds is stated by ParserTrees.IfBlocksBuild.
- Parser.IfAlternative: its own contract states only how the parser state changes; the node it builds is stated by ParserTrees.AlternativeBuilds.
- ParserTrees.AlternativeBuilds: without `else`, C returns the node with its `alternative` field never assigned (`parser.c:387`, `407-409`), and `ast.c:77`, `compiler.c:375` and `evaluator.c:327` read that field. The model gives the node no alternative (`NoElse`), which the readers take as NULL, as `evaluator_test.c:138-148` expects. The unset field is modelled only by `ParserTrees.AlternativeAsWritten` (see Findings).
- Parser.ParamsLoop: its own contract states only how the parser state changes; the names it collects are stated by Parser.ParamsLoopNames.
- Parser.ParseParameters: its own contract states only how the parser state changes; the names it collects are stated by Parser.ParseParametersNames.
- Parser.ParseFunction: its own contract states only how the parser state changes; the node it builds is stated by ParserTrees.FunctionBuilds.
- Parser.ListLoop: its own contract states only how the parser state changes; the node it builds is stated by ParserTrees.ListLoopItems.
- Parser.ParseList: its own contract states only how the parser state changes; the node it builds is stated by ParserTrees.ListBuilds.
- Parser.ParseArray: its own contract states only how the parser state changes; the node it builds is stated by ParserTrees.ArrayBuilds.
- Parser.HashLoop: its own contract states only how the parser state changes; the node it builds is stated by ParserTrees.HashLoopFrom and ParserTrees.HashPairs.
- Parser.HashValue: its own contract states only how the parser state changes; the node it builds is stated by ParserTrees.HashValueFrom and ParserTrees.PairBuilds.
- Parser.HashNext: its own contract states only how the parser state changes; the node it builds is stated by ParserTrees.HashNextFrom.
- Parser.ParseHash: its own contract states only how the parser state changes; the node it builds is stated by ParserTrees.HashBuilds.
- Parser.WhileRest: its own contract states only how the parser state changes; the node it builds is stated by ParserTrees.WhileRestBuilds.
- Parser.ParseWhile: its own contract states only how the parser state changes; the node it builds is stated by ParserTrees.WhileBuilds.
- Parser.ParseClause: its own contract states only how the parser state changes; the node it builds is stated by ParserTrees.ClauseBuilds.
- Parser.ForHeader: its own contract states only how the parser state changes; the node it builds is stated by ParserTrees.ForBuilds.
- Parser.ForUpdate: its own contract states only how the parser state changes; the node it builds is stated by ParserTrees.UpdateBuilds.
- Parser.ForRest: its own contract states only how the parser state changes; the node it builds is stated by ParserTrees.ForRestBuilds.
- Parser.ParseFor: its own contract states only how the parser state changes; the node it builds is stated by ParserTrees.ForBuilds.
- Parser.ParseInfix: its own contract states only how the parser state changes; the node it builds is stated by ParserTrees.BinaryBuilds, ParserTrees.CallBuilds, ParserTrees.IndexBuilds and ParserTrees.ReassignmentBuilds.


## Findings

Each row pairs a member that models the code as written, and exhibits the discrepancy, with the corrected member the rest of the model uses.

| source | as written | input that shows it | evidently intended | confidence | as-written member | corrected member |
|---|---|---|---|---|---|---|
| src/code/code.c:10-60 | the definition table stops at OP_BIT_XOR, so later entries have no name and no operands (the missing `case 1` of the next row drops one-byte operands as well) | make_instruction(OP_GET_LOCAL, [0xFF]) gives [OP_GET_LOCAL] (src/code/code_test.c:48-58 expects [OP_GET_LOCAL, 0xFF]) | an entry for every opcode with the widths the VM reads | high; not executed | Code.MakeInstructionAsWrittenDropsOperands | Code.ReadOperandsRoundTrip |
| src/code/code.c:84-90, 145-158 | make_instruction and read_operands have a `case 2` for operand widths and no `case 1`, so a width-1 operand is neither written nor read, even with a complete table | OP_GET_LOCAL 0xFF, width 1 in the table the VM reads, encodes as [OP_GET_LOCAL] and reads back no operand | write and read a width-1 operand as one byte | high; not executed | Code.WidthOneDroppedAsWritten | Code.ReadOperandsRoundTrip |
| src/parser/parser.c:387, 407-409 | parse_if_expression mallocs the node and assigns `alternative` only after `else`, so an if without `else` carries an unset field that the printer, compiler and evaluator read | `if (false) { 10 }` (src/evaluator/evaluator_test.c:138-148 expects NULL) | set `alternative` to NULL when there is no `else` | high; not executed | ParserTrees.IfWithoutElseUnset | ParserTrees.AlternativeBuilds |
| src/code/code.c:63 | `opcode > OP_COUNT` lets OP_COUNT index one past the table | a stream holding the byte 40 | `opcode >= OP_COUNT` | high; not executed | Code.LookupAsWrittenPastEnd | Code.Lookup |
| src/code/code.c:103-112 | format_instruction has no two-operand case | OP_CLOSURE 65535 255 (src/code/code_test.c:96-104) hits the assert | print both operands | high; not executed | Code.FormatAsWrittenRejectsClosure | Code.FormatTotal |
| src/code/code.c:115-141 | the listing prints the NULL names of the zero-initialised entries | [OP_TRUE] lists as "0000 (null)" | "0000 OP_TRUE" | medium; not executed | Code.DisassembleAsWrittenNullName | Code.EveryOpcodeNamed |
| src/ast/ast.c:18-25 | the name buffer is `sizeof(char *)` bytes and strlcpy copies `sizeof(ident->value) - 1` characters | the names "identity" and "identitz" | keep the whole name | high; not executed | Ast.NewIdentifierAsWrittenCollides | Ast.NewIdentifier |
| src/ast/ast.c:114-133 | value_to_string has no case for string, array, index or hash expressions | `b[2]` prints as ";\n" (src/parser/parser_test.c:328-329 expects "(b[2])") | print the index expression as "(left[index])" | high; not executed | Ast.IndexNotPrinted | Ast.IndexPrinted |
| src/parser/parser.c:447-450, 467 | a failed parameter list sets the size_t length to -1, so `len < 0` never holds | "fn(a b) {}" adds a second error and frees a NULL block of SIZE_MAX entries | return NULL after the first error | high; not executed | ParserExamples.BadParamsAsWritten | ParserExamples.BadParamsParse |
| src/compiler/symbol_table.c:22-33 | every symbol is GLOBAL in one flat table; the enclosed, builtin and free tables compiler.c calls are missing | test_define (src/compiler/symbol_table_test.c:12-47): "c" in an enclosed table | LOCAL index 0 in each enclosed table | high; not executed | SymbolTable.FlatDefineExample | SymbolTable.DefineExample |
| src/compiler/compiler.c:455-465 | replacing the trailing OP_POP by OP_RETURN_VALUE does not update last_instruction, so the OP_RETURN check still sees OP_POP and emits OP_RETURN | `fn() { 5 + 10 }` ends in OP_RETURN_VALUE, OP_RETURN (src/compiler/compiler_test.c:826-846 expects OP_RETURN_VALUE alone) | record OP_RETURN_VALUE as the last instruction | high; not executed | Compiler.EpilogueTrailingPop | Compiler.Epilogue |
| src/compiler/compiler.c:487-489, 502 | the back jump goes to `last_instruction.position + 1`: one byte past the start of the instruction before the loop, not the start of the condition | `let a = 0; while (a < 10) { a = a + 1; }; a;` jumps to 4, an operand byte of OP_SET_GLOBAL (src/compiler/compiler_test.c:1515 expects 6) | jump to the offset where the condition's code starts | high; not executed | Compiler.LoopStartAfterWide | Compiler.WhileLayout |
| src/environment/environment.c:19-21 | env_get looks only in the environment's own store and never follows `outer` | `let x = 1; let f = fn() { x }; f()` gives "undeclared identifier 'x'" from inside the call | look the name up in the enclosing environments in turn, as resolve_ident does | medium; not executed | EvaluatorExamples.OuterVariableLost | EvaluatorProperties.ClosureSees |
| src/evaluator/evaluator.c:680-694 | the walk steps to `env->outer` every time instead of `cur_env->outer`, so from two levels down it never moves past the first parent | `let x = 1; fn() { fn() { x = 2 }() }()` never ends | walk `cur_env->outer` and count the levels | high; not executed | EvaluatorExamples.ResolveLoops | EvaluatorProperties.ResolveAncestor |
| src/evaluator/evaluator.c:436-444 | the memcpy copies the new, uninitialised object over the argument's error instead of the error into the new object | `fn(a) { a }(1 + true)` returns an object of no kind instead of the type-mismatch error | return a copy of the argument's error | high; not executed | EvaluatorExamples.ArgumentErrorLost | EvaluatorProperties.FinishCallCases |
| src/evaluator/evaluator.c:484-487 | `len - 1` is a size_t and wraps for an empty array, so the bound check passes and element 0 is read | `[][0]` reads outside the array | NULL for every index outside the array | high; not executed | EvaluatorExamples.EmptyArrayIndex | Evaluator.ArrayElement |
| src/object/object.c:139-149; src/evaluator/evaluator.c:499-504, 551-556 | get_hash_key answers -1 both for a kind with no hash key and for the number -1, and the callers take -1 as "unusable" | `{-1: 5}` is refused as an unusable hash key | keep the unhashable answer apart from every key | high; not executed | Object.MinusOneLooksUnhashable | Object.UnhashableKinds |
| src/vm/vm.c:225-229, 252-256 | the VM refuses every negative hash key, and negative numbers have negative keys | `{-5: 1}` stops with VM_UNHASHABLE_OBJECT | refuse only the kinds that have no hash key | medium; not executed | Vm.NegativeKeyRefused | Vm.VmHashKey |
| src/vm/vm.c:214-238 | vm_build_hash never sets `hash->type`, and execute_index_expression reads it (vm.c:265-275) | `{1: 1, 2: 2}[1]` (src/vm/vm_test.c:263 expects 1) | set the type to HASH_OBJ, as vm_build_array sets ARRAY_OBJ | high; not executed | VmProperties.UntypedHashIndexCrashes | VmProperties.TypedHashIndexFindsValue |
| src/vm/vm.c:241-249 | `len - 1` is a size_t and wraps for an empty array, so the bound check passes and the read falls outside the array | `[][0]` (src/vm/vm_test.c:260 expects -1, a value read from outside the array) | push null for every index outside the array | high; not executed | VmProperties.EmptyArrayIndex | VmProperties.ArrayIndexOutOfRange |
| src/vm/file_loader.c:190-193 | each top-level instruction byte goes through an int8_t, so 0xFF compares equal to EOF and ends the read, and 0x80 to 0xFE come back 256 lower | OP_CONSTANT 255 written as 0, 0, 255 reads back as 0, 0 | keep the byte in an int and compare it with EOF before narrowing | high; not executed | FileFormat.TopLevelStopsAtFF | FileFormat.RoundTrip |
| src/vm/file_loader.c:82-83 | a function's parameter count goes through an int8_t into a size_t | a function of 200 parameters reads back with 2^64 - 56 | read the byte unsigned | medium; not executed | FileFormat.ParametersSignExtend | FileFormat.RoundTrip |
