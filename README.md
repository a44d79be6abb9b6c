# simplelang compiler core in Dafny

This project models the three stages of the simplelang toy compiler from the
8-bit computer project:

- **The scanner.** `getNextToken` in `lexer1.c` turns characters into tokens.
- **The recursive-descent parser.** `parser.c` turns tokens into a small AST of
  Program, VarDecl, Assign, Expression, If and Block nodes. Every node holds at
  most three children.
- **The code generator.** `AssemblyCode.c` walks the AST and emits
  accumulator-machine assembly text: `LOADI`, `LOAD`, `STORE`, `PUSH`, `POP`,
  `ADD`, `SUB`, `CMP`, `JNE` and labels. It keeps a symbol table and a label
  counter.

Each imperative C routine is a Dafny method over the same state. Each method
is proved equal to a pure specification function, and the properties of the
C code are proved as lemmas about those functions.

- `lexer.dfy` (module `Lexer`). `NextToken` scans a `seq<char>` from a cursor.
  It has the whitespace loop and, in `ScanRun`, the run loop with its 99-character
  text buffer.
  - `fgetc` becomes reading at the cursor; `ungetc` becomes not advancing.
  - Its specification is `Lex`.
- `parser.dfy` (module `Parsing`). The class `Parser` holds the token sequence
  and the cursor; the cursor plays the global `current_token`. It has one method
  per parse function, including the `while` loops of `parseProgram` and
  `parseIf`.
  - Each method agrees with a specification function: `ExpressionAt`,
    `VarDeclAt`, `AssignmentAt`, `StatementAt`, `IfAt`, and `StatementsAt` for
    the shared statement loop.
  - Each function returns a `Parse` outcome: the node and the cursor after it,
    or `Failed` with the syntax error. `error()` becomes that failure; the
    message is one of the ten `Syntax` reasons, whose texts are those of the C
    calls.
- `codegen.dfy` (module `CodeGen`). The class `Generator` has the symbol table,
  the label counter and the output lines as fields. `GenerateCode` is the
  recursive `generateCode`.
  - It agrees with the function `Gen` over a `GenState` value.
  - Every `exit(1)` becomes a failure recorded in the result, and nothing is
    emitted after it.
- `diagnostics.dfy` (module `Diagnostics`) holds the shared `Option`, `Result`
  and `Error` types.
- `examples.dfy` (module `Examples`) holds concrete runs on small programs.

Past the end of a token sequence the parser reads `EOF`. This matches the
scanner, which keeps returning `EOF` at the end of input.

The code disagrees with itself in two places. Both are stated as lemmas and
neither is silently repaired:

- **`If` has one child from the parser but two in the generator.** The
  generator's `If` case reads a condition at `children[0]` and a block at
  `children[1]` (`AssemblyCode.c:149`, `:158`). The parser builds an `If` whose
  only child is its Block (`parser.c:220`).
  - `Gen` therefore requires `Generable`: in every node the generator visits,
    an If has two children and an Assign has one.
  - `ParsedIfNotGenerable` proves that no If the parser produces meets that
    requirement.
- **Binary-expression operands are plain leaves, which the generator rejects.**
  The parser makes every operand a `NODE_UNKNOWN` leaf (`parser.c:176-184`).
  - The one-operand Expression case reads the leaf's text directly, so parsed
    single-operand expressions compile. `GenerateSample` shows this.
  - The binary case recurses into the operand leaves and reaches the `default`
    error. `GenRejectsParserBinary` and `ParsedAdditionRejected` show this.
  - The binary-expression properties (`GenBinary`) are stated for operands that
    are one-operand Expression nodes.

The two files also number the token kinds differently (`lexer1.c:9-24` against
`parser.c:8-23`). The model uses one datatype with named constructors. In
`parser.c` the bare calls `getNextToken(file)` do not match the two-argument
prototype at `parser.c:62`. They are modelled as advancing the cursor by one
token.

## Model

| member | source | states |
|---|---|---|
| Diagnostics.SyntaxText | 8bit-computer-master/src/parser.c:95-217 | the message text of each parser error() call; never empty |
| Diagnostics.Message | 8bit-computer-master/src/parser.c:72-76 | the line printed before exit(1) for each error kind; never empty |
| Lexer.SkipSpaces | 8bit-computer-master/src/lexer1.c:39-42 | the first non-space position at or after the cursor; everything skipped is an isspace character |
| Lexer.RunEnd | 8bit-computer-master/src/lexer1.c:49-53 | the end of the maximal run of the class (alphanumeric or digit); every character before it is in the run and the one at it is not |
| Lexer.Truncate | 8bit-computer-master/src/lexer1.c:51-52 | the stored text is the first 99 characters of a longer run, and the whole run otherwise |
| Lexer.WordKind | 8bit-computer-master/src/lexer1.c:57-69 | the stored word is Int exactly when it is "int", If exactly when it is "if", and Identifier exactly when it is neither |
| Lexer.Single | 8bit-computer-master/src/lexer1.c:105-129 | each of + - { } ; gets its own kind and no other character does; every other character is Unknown; the text is the character read |
| Lexer.TruncateExtend | 8bit-computer-master/src/lexer1.c:49-53 | one more character of the run is stored exactly while fewer than 99 are held, and dropped afterwards |
| Lexer.TruncatedRun | 8bit-computer-master/src/lexer1.c:49-53 | the stored text is no longer than the run and keeps its characters in place |
| Lexer.RunEndIs | 8bit-computer-master/src/lexer1.c:49-53 | a position where the class first fails after a run of the class is the run's end |
| Lexer.Lex | 8bit-computer-master/src/lexer1.c:34-136 | the cursor never moves backwards; EOF exactly when only spaces remain; every other token consumes at least one character; the text is at most 99 characters; every token is well formed for its kind |
| Lexer.ScanRun | 8bit-computer-master/src/lexer1.c:47-55 | the loop stops at the end of the maximal run and the buffer holds the run truncated to 99 characters |
| Lexer.NextToken | 8bit-computer-master/src/lexer1.c:34-136 | the token and cursor the method produces are exactly those of Lex |
| Lexer.Tokenize | 8bit-computer-master/src/lexer1.c:150-154 | calling the scanner until EOF yields exactly one EOF, which comes last, and only well-formed tokens |
| Lexer.LexSkipsWhiteSpace | 8bit-computer-master/src/lexer1.c:39-42 | skipped characters are all spaces, and lexing from the first non-space gives the same token and cursor |
| Lexer.TokenStartsAtFirstNonSpace | 8bit-computer-master/src/lexer1.c:39-48 | a non-EOF token's text begins with the first non-space character |
| Lexer.LexWordAt | 8bit-computer-master/src/lexer1.c:45-70 | a word token consumes at least one character, is not EOF, starts with the letter read and is well formed |
| Lexer.LexNumberAt | 8bit-computer-master/src/lexer1.c:74-87 | a number token consumes at least one character, has kind Number, starts with the digit read and is well formed |
| Lexer.LexWord | 8bit-computer-master/src/lexer1.c:45-70 | a letter starts a maximal alphanumeric run that is not consumed past its end; Int if and only if the run is "int", If if and only if it is "if", Identifier otherwise |
| Lexer.TruncateKeyword | 8bit-computer-master/src/lexer1.c:51-62 | truncation to 99 characters never turns a longer run into the keyword "int" or "if" |
| Lexer.LexNumber | 8bit-computer-master/src/lexer1.c:74-87 | a digit starts a maximal digit run; it yields Number with the truncated run and leaves the first non-digit unconsumed |
| Lexer.LexEquals | 8bit-computer-master/src/lexer1.c:92-104 | "==" is one Equal token of two characters; any other "=" is Assign and the next character is not consumed |
| Lexer.LexSingle | 8bit-computer-master/src/lexer1.c:105-129 | each of + - { } ; maps to its own kind and nothing else does; any other character is Unknown; the text is that one character and exactly one character is consumed |
| Lexer.LexEndOfInput | 8bit-computer-master/src/lexer1.c:133-135 | at the end of input the token is EOF with empty text at the end position, and lexing again yields EOF again |
| Parsing.AddChild | 8bit-computer-master/src/parser.c:90-96 | succeeds if and only if fewer than 3 children are present; on success the child sits at index child_count and earlier children are unchanged; otherwise the child-limit syntax error |
| Parsing.Leaf | 8bit-computer-master/src/parser.c:176-184 | an operand or operator becomes a childless NODE_UNKNOWN node that keeps the token's text |
| Parsing.CurrentWellFormed | 8bit-computer-master/src/parser.c:53 | on scanner tokens the lookahead is a well-formed token |
| Parsing.CurrentPastEnd | 8bit-computer-master/src/lexer1.c:133-135 | at every cursor position from the last token of a scanned stream on, the parser's lookahead is the EOF token with empty text that the scanner returns at the end of input |
| Parsing.ExpressionAt | 8bit-computer-master/src/parser.c:171-198 | succeeds if and only if an operand comes first and any + or - after it is followed by an operand; the result has 1 or 3 leaf children, one per token consumed, 3 exactly when an operator follows |
| Parsing.ExpressionErrors | 8bit-computer-master/src/parser.c:187-196 | no operand first gives "Invalid expression"; an operator without a second operand gives the missing-operand error |
| Parsing.VarDeclAt | 8bit-computer-master/src/parser.c:133-148 | accepts exactly `int IDENT ;`, consuming three tokens and giving a childless VarDecl named after the identifier; both error messages |
| Parsing.AssignmentAt | 8bit-computer-master/src/parser.c:151-168 | a success is an Assign node and consumes at least four tokens |
| Parsing.AssignmentCases | 8bit-computer-master/src/parser.c:151-168 | `IDENT = Expr ;` gives an Assign named after the target with the expression as its only child; a missing `=`, a failing expression (its error passed on) and a missing `;` each give their error |
| Parsing.StatementAt | 8bit-computer-master/src/parser.c:111-130 | a success has the node kind the current token selects (Int to VarDecl, Identifier to Assign, If to If) and consumes at least one token |
| Parsing.StatementRejects | 8bit-computer-master/src/parser.c:125-128 | any other current token gives "Unexpected token in statement" |
| Parsing.IfAt | 8bit-computer-master/src/parser.c:201-222 | a missing `{` fails; a success ends on `}` and yields an If with text "if" whose only child is a Block of at most 3 statements |
| Parsing.StatementsAt | 8bit-computer-master/src/parser.c:102-106 | the loop stops exactly on a stop token (EOF, or also `}` inside a block), and the node keeps its kind, text and the 3-children bound |
| Parsing.ProgramAt | 8bit-computer-master/src/parser.c:99-108 | a success is a Program root with at most 3 children that ends on EOF |
| Parsing.Parser.constructor | 8bit-computer-master/src/parser.c:256 | the parser starts at the first token of the stream |
| Parsing.Parser.Advance | 8bit-computer-master/src/parser.c:135 | getNextToken moves the lookahead exactly one token on |
| Parsing.Parser.ParseExpression | 8bit-computer-master/src/parser.c:171-198 | the node or error and the final cursor are those of ExpressionAt |
| Parsing.Parser.ParseVarDecl | 8bit-computer-master/src/parser.c:133-148 | the node or error and the final cursor are those of VarDeclAt |
| Parsing.Parser.ParseAssignment | 8bit-computer-master/src/parser.c:151-168 | the node or error and the final cursor are those of AssignmentAt |
| Parsing.Parser.ParseStatement | 8bit-computer-master/src/parser.c:111-130 | the node or error and the final cursor are those of StatementAt |
| Parsing.Parser.ParseIf | 8bit-computer-master/src/parser.c:201-222 | the node or error and the final cursor are those of IfAt, the while loop included |
| Parsing.Parser.ParseProgram | 8bit-computer-master/src/parser.c:99-108 | the node or error and the final cursor are those of ProgramAt, the while loop included |
| Parsing.StatementsSound | 8bit-computer-master/src/parser.c:99-108 | a successful statement loop keeps the earlier children and adds exactly a run of consecutive statements, in source order |
| Parsing.ListSound | 8bit-computer-master/src/parser.c:99-108 | a loop started on a childless node returns exactly consecutive statements, ending where the loop stopped |
| Parsing.StatementsStop | 8bit-computer-master/src/parser.c:102 | proof step: on a stop token the loop ends at once and leaves the node as it is |
| Parsing.StatementsStep | 8bit-computer-master/src/parser.c:102-106 | proof step: one loop turn: a statement that parses and fits is appended and the loop continues after it |
| Parsing.StatementsComplete | 8bit-computer-master/src/parser.c:99-108 | conversely, consecutive statements that fit, followed by a stop token, are all accepted in order |
| Parsing.StatementsPrepend | 8bit-computer-master/src/parser.c:102-106 | a first statement that fits, followed by a loop that accepts the rest, makes the loop accept all of them |
| Parsing.StatementsOverflow | 8bit-computer-master/src/parser.c:90-96 | consecutive statements that do not fit make the loop fail with the child-limit error |
| Parsing.ProgramAccepts | 8bit-computer-master/src/parser.c:99-108 | parseProgram succeeds if and only if at most 3 consecutive statements are followed by EOF, and the root's children are those statements in order |
| Parsing.ProgramOverflow | 8bit-computer-master/src/parser.c:99-108 | a program of more than 3 well-formed statements is a syntax error |
| Parsing.IfAccepts | 8bit-computer-master/src/parser.c:201-222 | `if {` then at most 3 statements then `}` gives an If whose one Block child holds those statements; EOF instead of `}` gives the missing-brace error |
| Parsing.IfUnfold | 8bit-computer-master/src/parser.c:201-222 | proof step: after `if {` the outcome is the statement loop's failure, the missing-`}` error, or the If around the loop's Block |
| Parsing.IfFromBody | 8bit-computer-master/src/parser.c:209-221 | proof step: once the loop after `if {` has stopped, `}` gives the If around its Block and any other token the missing-`}` error |
| Parsing.IfBody | 8bit-computer-master/src/parser.c:201-222 | every successful If parse read `if {`, holds exactly the Block the loop returned and ends one token after it; with ListSound the block is consecutive statements starting after `{` |
| Parsing.ExpressionIsTree | 8bit-computer-master/src/parser.c:171-198 | on scanner tokens an expression is one operand leaf, or an operand, a "+"/"-" leaf and an operand |
| Parsing.VarDeclIsTree | 8bit-computer-master/src/parser.c:133-148 | on scanner tokens a declaration is a childless VarDecl with a non-empty name |
| Parsing.AssignmentIsTree | 8bit-computer-master/src/parser.c:151-168 | on scanner tokens an assignment has a non-empty target and one well-shaped expression |
| Parsing.StatementIsTree | 8bit-computer-master/src/parser.c:111-130 | on scanner tokens a parsed statement is a well-shaped VarDecl, Assign or If |
| Parsing.IfIsTree | 8bit-computer-master/src/parser.c:201-222 | on scanner tokens an If has exactly one Block child of well-shaped statements |
| Parsing.StatementsAreTrees | 8bit-computer-master/src/parser.c:102-106 | the statement loop adds only well-shaped statements |
| Parsing.ProgramIsTree | 8bit-computer-master/src/parser.c:99-108 | on scanner tokens every tree parseProgram returns is well shaped throughout |
| CodeGen.DigitChar | 8bit-computer-master/src/AssemblyCode.c:96 | the digit character whose value is d |
| CodeGen.NatToString | 8bit-computer-master/src/AssemblyCode.c:96 | the %d text of n: decimal digits only, no leading zero, and read as a decimal numeral it is n |
| CodeGen.NatToStringInjective | 8bit-computer-master/src/AssemblyCode.c:153 | different numbers print differently |
| CodeGen.DecimalUnique | 8bit-computer-master/src/AssemblyCode.c:96 | any digit string without a leading zero that reads as n is exactly the text printed for n |
| CodeGen.LabelText | 8bit-computer-master/src/AssemblyCode.c:153 | a label is LABEL_ followed by a numeral whose value is the counter |
| CodeGen.StoreText | 8bit-computer-master/src/AssemblyCode.c:96 | a store is `STORE R0, ` followed by a numeral whose value is the address |
| CodeGen.LoadText | 8bit-computer-master/src/AssemblyCode.c:116 | a load is `LOAD R0, ` followed by a numeral whose value is the address |
| CodeGen.LoadImmText | 8bit-computer-master/src/AssemblyCode.c:109 | an immediate load is `LOADI R0, ` followed by the operand text unchanged |
| CodeGen.JneIsJump | 8bit-computer-master/src/AssemblyCode.c:155 | `JNE ` followed by the label is a jump whose target is that label |
| CodeGen.LabelsDistinct | 8bit-computer-master/src/AssemblyCode.c:153 | LABEL_m and LABEL_n are the same string only if m = n |
| CodeGen.FirstMatch | 8bit-computer-master/src/AssemblyCode.c:50-61 | the index of the first entry with the name, or no index when no entry has it |
| CodeGen.Lookup | 8bit-computer-master/src/AssemblyCode.c:50-61 | no address exactly when no entry has the name; otherwise the address of an entry with the name before which no entry has it |
| CodeGen.Declare | 8bit-computer-master/src/AssemblyCode.c:64-69 | the table gains one last entry, the name at address symbol_count, and nothing else changes; addresses stay equal to positions; the name then resolves to its first declaration, or to the new entry if it was undeclared |
| CodeGen.AppendEffect | 8bit-computer-master/src/AssemblyCode.c:44-47 | emit adds exactly the instruction at the end of the output, leaves table and counter alone, and adds a jump target only for a JNE |
| CodeGen.Gen | 8bit-computer-master/src/AssemblyCode.c:72-174 | the label counter never decreases |
| CodeGen.GenChildren | 8bit-computer-master/src/AssemblyCode.c:79-84 | the label counter never decreases over the loop on the children |
| CodeGen.GenGrows | 8bit-computer-master/src/AssemblyCode.c:72-174 | output and symbol table only grow by appending, the label counter never decreases, and addresses stay equal to table positions |
| CodeGen.GenChildrenGrows | 8bit-computer-master/src/AssemblyCode.c:79-84 | the same growth properties for the loop over the children |
| CodeGen.GenBinaryUnfold | 8bit-computer-master/src/AssemblyCode.c:120-143 | proof step: one unfolding of the binary case, the left operand, PUSH R0, the right operand, then Combine |
| CodeGen.CombineEffect | 8bit-computer-master/src/AssemblyCode.c:126-142 | the tail of a binary expression emits POP R1 and then ADD R0, R1 for "+" or SUB R0, R1 for "-"; it succeeds exactly for those two operators and otherwise fails with the unsupported-operator error after the POP; table and counter are unchanged |
| CodeGen.Generator.constructor | 8bit-computer-master/src/AssemblyCode.c:34-35 | a run starts with an empty table, counter 0 and no output |
| CodeGen.Generator.Emit | 8bit-computer-master/src/AssemblyCode.c:44-47 | appends exactly one line to the output and changes nothing else |
| CodeGen.Generator.AddSymbol | 8bit-computer-master/src/AssemblyCode.c:64-69 | appends the name at address symbol_count and changes nothing else |
| CodeGen.Generator.GetSymbolAddress | 8bit-computer-master/src/AssemblyCode.c:50-61 | the for loop returns the address of the first entry with the name, or reports it undefined |
| CodeGen.Generator.GenerateCode | 8bit-computer-master/src/AssemblyCode.c:72-174 | the new table, counter and output, and the failure if any, are those of Gen on the old state |
| CodeGen.Generator.GenerateChildren | 8bit-computer-master/src/AssemblyCode.c:164-167 | the for loop over the children ends in the state and failure of GenChildren |
| CodeGen.LookupAfterDeclare | 8bit-computer-master/src/AssemblyCode.c:64-69 | after addSymbol every earlier lookup is unchanged, so a duplicate name resolves to its first declaration; a new name resolves to the new entry |
| CodeGen.LookupIsFirstPosition | 8bit-computer-master/src/AssemblyCode.c:50-61 | in a table built by addSymbol, a lookup succeeds if and only if the name is present, and the address is the position of its first entry |
| CodeGen.GenVarDecl | 8bit-computer-master/src/AssemblyCode.c:86-89 | a VarDecl emits nothing, keeps the counter and only appends its name at the next address |
| CodeGen.GenAssign | 8bit-computer-master/src/AssemblyCode.c:91-99 | an undeclared target fails with nothing emitted and the state unchanged; otherwise the expression's code is followed by STORE to the target's address |
| CodeGen.GenOperand | 8bit-computer-master/src/AssemblyCode.c:103-119 | a one-operand Expression emits exactly that one instruction, or fails emitting nothing, and changes neither table nor counter |
| CodeGen.GenBinary | 8bit-computer-master/src/AssemblyCode.c:120-143 | left code, PUSH R0, right code, POP R1, then ADD or SUB for + or -; any other operator fails after the first four have been emitted |
| CodeGen.GenOtherShapes | 8bit-computer-master/src/AssemblyCode.c:101-173 | an Expression with neither 1 nor 3 children emits nothing and succeeds; any other node kind fails with the unknown-node error |
| CodeGen.GenRejectsParserBinary | 8bit-computer-master/src/AssemblyCode.c:123 | a binary expression with the parser's operand leaves fails with the unknown-node error before emitting anything |
| CodeGen.ParsedIfNotGenerable | 8bit-computer-master/src/AssemblyCode.c:149-158 | for every token stream, an If that parseIf returns lacks the children[1] block the generator reads |
| CodeGen.GenIf | 8bit-computer-master/src/AssemblyCode.c:147-161 | condition code, CMP R0, 1, JNE LABEL_k, block code, then LABEL_k, where k is the counter before the label is made and the counter rises by one |
| CodeGen.GenChildrenSnoc | 8bit-computer-master/src/AssemblyCode.c:79-84 | a further child runs after all the others, on their final state, unless one of them failed |
| CodeGen.GenProgramSnoc | 8bit-computer-master/src/AssemblyCode.c:79-84 | a Program's code is its statements' code concatenated in order |
| CodeGen.LabelRange | 8bit-computer-master/src/AssemblyCode.c:153 | the labels of counter values from..to-1; its length is the number of values |
| CodeGen.GenJumps | 8bit-computer-master/src/AssemblyCode.c:147-161 | the jump targets one call emits are exactly the labels of the counter values it allocates, in increasing order |
| CodeGen.JumpsTrans | 8bit-computer-master/src/AssemblyCode.c:147-161 | jump targets that follow the allocated labels over two consecutive stretches follow them over both |
| CodeGen.RunJumpsDistinct | 8bit-computer-master/src/AssemblyCode.c:152-153 | a whole run jumps to LABEL_0, LABEL_1, ... in order, and no two jumps share a target |
| Examples.KeywordIsWholeWord | 8bit-computer-master/src/lexer1.c:45-70 | "int x" starts with Int, and "integer" is one Identifier |
| Examples.EqualsVersusAssign | 8bit-computer-master/src/lexer1.c:92-104 | "==" is Equal; " = 5" is Assign and stops before the space |
| Examples.LexSampleInt | 8bit-computer-master/src/lexer1.c:45-70 | the sample text `int a; a = 5;` starts with Int |
| Examples.LexSampleName | 8bit-computer-master/src/lexer1.c:45-70 | both occurrences of `a` in the sample are one-character Identifiers |
| Examples.LexSamplePunctuation | 8bit-computer-master/src/lexer1.c:74-135 | the sample's `;`, `=`, `5`, `;` and its EOF |
| Examples.ParseSample | 8bit-computer-master/src/parser.c:99-108 | the sample's tokens parse to a declaration and an assignment of a literal |
| Examples.GenerateSample | 8bit-computer-master/src/AssemblyCode.c:86-119 | the parsed sample generates `LOADI R0, 5` then `STORE R0, 0` |
| Examples.FourStatementsOverflow | 8bit-computer-master/src/parser.c:90-96 | four declarations, as in the sample program, fail with the child-limit error |
| Examples.GenerateAddition | 8bit-computer-master/src/AssemblyCode.c:120-143 | `b = a + 3` with one-operand Expression operands generates LOAD, PUSH, LOADI, POP, ADD, STORE |
| Examples.ParsedAdditionRejected | 8bit-computer-master/src/AssemblyCode.c:123-125 | `a + 3` as the parser builds it is rejected by the generator |
| Examples.ParenthesisedConditionRejected | 8bit-computer-master/src/parser.c:205-208 | `if (c == 30) {` as written in the sample program fails with the missing-brace error |

## Left out

- The `main` functions (`lexer1.c:139-158`, `parser.c:247-263`). They open a file, print tokens or the tree, and return exit codes. Only the token loop is modelled, as `Tokenize`.
- `printAST` and `freeAST` (`parser.c:225-244`): debug output and memory release, which have no counterpart for immutable values.
- `exit(1)` and the split between stdout and stderr. An error is a result value carrying its kind and message, and nothing is emitted after it.
- `createNode`: building a node is a datatype constructor. The `text` of an Expression node is never written by the C code (`createNode(..., NULL)`); the model uses the empty string.
- `AddChild`: it returns a new node value instead of updating `children` and `child_count` in place. Nodes here are not shared, so aliasing is not captured.
- The `if (!node) return;` check at the top of `generateCode`: a node value is never null.
- What the generator does on an If with fewer than two children, or an Assign without a child, when it visits that node: the C code reads an uninitialised pointer. `Generable` excludes these trees. Nodes the generator never visits (the children of a VarDecl or an unknown node, the operator leaf and the single operand leaf of an Expression, the children of an If after `children[1]`) are not constrained.
- C `int` overflow of `symbol_count`, `label_count` and the addresses. The model uses unbounded naturals, so `STORE R0, %d` and `LABEL_%d` never wrap.
- C buffer limits other than the 99-character token text: `strcpy` into the 100-byte node text, `sprintf` into the 50-byte instruction buffer, and the 100-entry symbol table. Sequences are unbounded here.
- The integer values of the two token enums. The model has one token datatype with named constructors.
- Characters as bytes. Text is `seq<char>`, and the character classes are those of the C locale on ASCII. A NUL character read from the input would end a C string early; this is not modelled.
- The sample program `simplelang.c` is not executable logic. It appears only as input to `FourStatementsOverflow` and `ParenthesisedConditionRejected`.
- Examples: the full token list of the sample text is shown position by position (`LexSampleInt`, `LexSampleName`, `LexSamplePunctuation`), not as one `Tokenize` equation.
- Diagnostics.Message: states only that the message is non-empty. The exact texts are its body.
- Diagnostics.SyntaxText: states only that the text is non-empty. The exact texts are its body.
