# A model of the eokas compiler

eokas is a small compiler: a scanner with one token of look-ahead feeds a recursive-descent
parser, and a coder turns the tree into basic blocks through an IR builder. Beside it stands a
thread pool. This project models these parts and proves what they do, for every input.

* `Tokens`, `Lexing`, `Scanner`, `Rendering`, `Layout`, `LookingAhead`: characters to tokens.
  `Lexing` says what the scanner reads off a text; the class `Scanner.Scanner` is the scanner
  itself, proved against it; `Rendering` writes tokens as text and proves scanning its inverse;
  `Layout` says what may stand between them.
* `Literals`: the conversion loops for integer literals and the constant that a literal becomes.
* `Grammar`, `Completeness`, `Soundness`, `Printing`, `Grouping`: expressions. The descent is a
  function from tokens to the tree as it is written, parentheses included; `Erase` gives the syntax
  tree. `Grouping` tells precedence by the operators' signs alone.
* `Statements`, `StatementCompleteness`, `StatementSoundness`, `StatementPrinting`: the same for
  types, statements and modules, up to whole programs as text. `Parser.Parser` is the parser
  itself, a class that drives the scanner, proved against these functions.
* `Scalar`, `Ir`, `Instructions`: fixed-width integers and the laws of their operations,
  instructions, basic blocks and the machine that runs them.
* `Lowering`, `Coder`: what the coder emits, as a function of the module's state, and the class
  `Coder.ModuleCoder` that emits it into its fields.
* `Semantics`: what a program means, told without blocks, registers or slots. Statements have
  outcomes; each loop iteration spends fuel, so that divergence is running out of every fuel.
* `Structure`, `Simulation`, `Preservation`, `Meaning`, `WellFormed`, `InitBeforeUse`,
  `TypeSafety`, `Operators`, `ShortCircuit`, `Mutability`, `Counterexamples`: the proofs about the
  emitted code. `Acceptance` is a check of names and types that says which programs have any.
* `Compiler`: the parts run one after the other, from text to code that behaves as the program.
* `ThreadPool`: workers and one client as interleaved atomic steps.

The two classes of programs that the main theorem needs are `Semantics.ScopedSeq` (no `var` or
`val` is itself a branch or a loop body) and `Meaning.MergeableSeq` (no ternary's branch holds a
ternary, and its branches do not fold to the same constant). For both, `Counterexamples` has accepted
programs outside the class whose code does not behave as they do. Without the second class
`Preservation.StrictPreservation` still says exactly what the code does: it is stuck where a merge
does not know the branch that was taken.

Every lemma carries `{:induction false}`, so that a proof by induction shows its recursive calls.

## Where the code and its manual differ

The model follows the code.

* The manual makes `&&` and `||` stop early (doc/eokas-language-manual-zh.md:113-115); the code
  evaluates both operands. `Operators.EagerExact` says exactly when that makes no difference to an
  expression, `ShortCircuit.LazyPreservation` for which programs it makes none, and
  `ShortCircuit.GuardedDiffers` is a program to which it does.
* The manual forbids assigning to a `val` (line 44); the coder does not distinguish it from a `var`:
  see `Mutability.ValIsVar`.
* The table of token names has the two shift operators the wrong way round (src/app/scanner.h:45);
  the scanner reads `|<` as shift-left.
* A ternary's merge names the blocks where the branches begin, not those where they end, and keeps
  one entry per value, where the builder folds operations on constants to one value for equal
  results; see `Simulation.PhiKnows`.
* The complement's mask is 32 ones at every width; see `Operators.FlipExact`.
* An integer literal may begin with any digit before its `b` or `x`; see `Literals.BasedExact`.
* An unknown token that was looked at is lost; see `LookingAhead.LookAheadTransparency`.
* Members of a struct and imports are never accepted by the parser.
* The thread pool's destructor can leave tasks in the queue; `ThreadPool.DestructorRuns` says exactly
  when and which.

## Model

| member | source | states |
|---|---|---|
| Tokens.NamedName | src/app/scanner.h:32-49 | every name of the table is found as its own type: no two types share a name |
| Scanner.Scanner.InferType | src/app/scanner.cxx:15-33 | the search of the name table gives the token the type its text names, or the default |
| Scanner.Scanner.constructor | src/app/scanner.cxx:55-61 | a ready scanner has all tokens of the text to come |
| Scanner.Scanner.ReadChar | src/app/scanner.cxx:495-500 | reading goes on by one character and is never called behind the end of the text |
| Scanner.Scanner.NewLine | src/app/scanner.cxx:485-493 | one or two line-break characters are skipped, and nothing else |
| Scanner.Scanner.ScanLineComment | src/app/scanner.cxx:444-449 | skips to the line break or the end of the text |
| Scanner.Scanner.ScanSectionComment | src/app/scanner.cxx:451-483 | skips behind the closing mark or to the end of the text |
| Scanner.Scanner.SaveRun | src/app/scanner.cxx:434-442 | saves exactly the longest run of characters of the class |
| Scanner.Scanner.ScanNumber | src/app/scanner.cxx:310-350 | binary, hexadecimal, decimal and floating literals with the text they consume |
| Scanner.Scanner.ScanEscape | src/app/scanner.cxx:367-419 | each escape adds its character, `\x` its two digits; any other escape fails there |
| Scanner.Scanner.ScanString | src/app/scanner.cxx:352-432 | the unescaped value up to the delimiter, or an unknown token where the string breaks off |
| Scanner.Scanner.ScanIdentifier | src/app/scanner.cxx:434-442 | a word is its keyword or an identifier |
| Scanner.Scanner.Scan | src/app/scanner.cxx:119-308 | blanks and comments skipped, the next token and the rest are those of `Lexing.Lex` |
| Scanner.Scanner.NextToken | src/app/scanner.cxx:79-90 | delivers the token looked at, if it is known, and else scans |
| Scanner.Scanner.LookAheadToken | src/app/scanner.cxx:97-107 | shows the next token and leaves the current one as it is |
| LookingAhead.KnownTransparent | src/app/scanner.cxx:79-107 | from any state, looking and advancing in any order delivers the tokens to come in order, then the end forever |
| LookingAhead.LookAheadTransparency | src/app/scanner.cxx:79-107 | all interleavings deliver the text's tokens in order if and only if the text has no unknown token |
| LookingAhead.PeekingLoses | src/app/scanner.cxx:97-107 | looking at an unknown token drops it: the next one delivered is its successor |
| Rendering.QuotedText | src/app/scanner.cxx:352-432 | any string without NUL, escaped and between quotes of either kind, is scanned as itself |
| Rendering.HexEscapeText | src/app/scanner.cxx:400-409 | an `\x` escape stands for its two digits themselves |
| Rendering.BrokenText | src/app/scanner.cxx:352-366 | a line break or the end of the text inside a string makes the token unknown |
| Rendering.LexText | src/app/scanner.cxx:119-308 | every valid token, written and followed by a blank, a comment or the end, is scanned as itself under maximal munch |
| Rendering.TokenRoundTrip | src/app/scanner.cxx:119-442 | any sequence of valid tokens written with spaces scans back to itself |
| Layout.GapSkipped | src/app/scanner.cxx:119-165 | a blank, a line break, a line comment with its line break and a section comment up to its first closing mark change no token behind them |
| Layout.LastComment | src/app/scanner.cxx:444-449 | a line comment may end with the text |
| Layout.LayoutRoundTrip | src/app/scanner.cxx:119-483 | any sequence of valid tokens with any layout before, between and behind them scans back to itself |
| Layout.Digits | src/app/scanner.cxx:310-350 | the digits of the three kinds of numbers, listed |
| Layout.Letters | src/app/scanner.cxx:434-442 | the characters that words begin with and go on with, listed |
| Rendering.LexTokenValid | src/app/scanner.cxx:119-442 | whatever is scanned is unknown, the end, or a valid token |
| Rendering.ScannerRange | src/app/scanner.cxx:119-442 | the sequences without an unknown token that texts scan to are exactly the sequences of valid tokens |
| Literals.StringToValue | deps/eokas-base/include/eokas-base/string.h:179-231 | the conversion loop ors the shifted digits and gives 0 beyond 32 bits or 8 digits |
| Literals.OrDisjoint | deps/eokas-base/include/eokas-base/string.h:190-196 | oring bits that do not overlap is adding them |
| Literals.BasedPositional | deps/eokas-base/include/eokas-base/string.h:179-231 | for up to 32 binary or 8 hexadecimal digits the loops give the positional value read as signed 32 bits |
| Literals.BasedExact | deps/eokas-base/include/eokas-base/string.h:179-231 | a scanned literal has the value of the digits behind its prefix if and only if the prefix begins with 0 |
| Literals.HexDigits | deps/eokas-base/include/eokas-base/string.h:217-224 | the hexadecimal digits, listed; upper and lower case count the same |
| Literals.LongLiterals | deps/eokas-base/include/eokas-base/string.h:179-231 | a decimal literal has its value if and only if that fits 32 signed bits, and else the largest; based ones with too many digits are 0 |
| Literals.IntRoundTrip | src/app/parser.cxx:382-412 | every 32-bit number is written as a valid token that is read back as the number |
| Literals.WidthKeepsValue | src/omis/x-module-coder.cpp:347-355 | the 32/64-bit choice keeps a literal's signed value exactly outside 0x80000000 to 0xFFFFFFFF |
| Literals.LiteralConstant | src/omis/llvm/llvm.cxx:313-317 | the constant of every parsed literal has its value, and is 64 bits wide exactly when negative |
| Grammar.PExpr | src/app/parser.cxx:170-198 | a parsed expression consumes at least one token |
| Completeness.CompleteLeft | src/app/parser.cxx:204-252 | operators of one level are collected to the left: after a left operand the loop goes on with its tree |
| Completeness.CompleteExpr | src/app/parser.cxx:170-380 | every well-formed tree is found in its tokens, whatever follows that cannot go on with it |
| Completeness.CompleteSuffixed | src/app/parser.cxx:319-380 | the tokens of a suffixed expression lead the loop to its tree |
| Completeness.CompleteElems | src/app/parser.cxx:652-675 | array elements with or without a last comma are found |
| Soundness.SoundExpr | src/app/parser.cxx:170-380 | a returned tree is well-formed and its tokens are exactly those consumed |
| Soundness.ExprExact | src/app/parser.cxx:170-380 | the descent returns a tree if and only if it is well-formed, written with the consumed tokens and not continued |
| Soundness.BinaryExact | src/app/parser.cxx:204-252 | at each level: left operands have at least their operator's level, right ones a higher one, and the tree is the only such one |
| Soundness.TreeUnique | src/app/parser.cxx:170-380 | the grammar is unambiguous: the same tokens are never two trees |
| Grouping.TreesGroup | src/ast/header.h:29-39 | for all operators and operands, `x p y q z` is `x p (y q z)` exactly when the class of `q` comes later in the list of classes, and else `(x p y) q z` |
| Grouping.NamesGroup | src/app/parser.cxx:1297-1376 | the same from the text on, with the operators written by their signs |
| Grouping.SignSpelled | src/app/parser.cxx:1297-1357 | each binary operator has the sign listed |
| Grouping.PrefixSpelled | src/app/parser.cxx:1256-1284 | each prefix operator has the sign listed |
| Printing.ExprRoundTrip | src/app/parser.cxx:170-380 | writing an expression with the fewest parentheses and parsing it gives it back and consumes exactly its tokens |
| Printing.ErasePrintable | src/app/parser.cxx:258-470 | every parsed expression has a text |
| Printing.PrintMinimal | src/app/parser.cxx:170-380 | no text of an expression has fewer tokens than the one it is written with |
| StatementCompleteness.CompleteType | src/app/parser.cxx:133-168 | a type reference with its arguments is found in its tokens |
| StatementCompleteness.CompleteStmt | src/app/parser.cxx:723-1222 | every well-formed statement is found in its tokens, unless an `else` follows that it would take |
| StatementCompleteness.CompleteItems | src/app/parser.cxx:1170-1189 | a block's statements are found, each with or without a further semicolon |
| StatementSoundness.SoundType | src/app/parser.cxx:133-168 | a returned type is written with exactly the tokens consumed |
| StatementSoundness.SoundIf | src/app/parser.cxx:1066-1095 | an `else` goes to the nearest `if` that can take it |
| StatementSoundness.StmtExact | src/app/parser.cxx:723-1222 | the descent returns a statement if and only if it is well-formed, written with the consumed tokens and not continued |
| StatementSoundness.ModuleExact | src/app/parser.cxx:35-82 | a module is accepted as some statements if and only if its tokens are what they are written as |
| StatementPrinting.ProgramRoundTrip | src/app/parser.cxx:20-82 | writing a program as text, scanning and parsing it gives the program back |
| StatementPrinting.StatementWords | src/app/parser.cxx:729-751 | the words of definitions, `break` and `continue` |
| StatementPrinting.FurtherSemicolons | src/app/parser.cxx:1170-1189 | further semicolons behind the statements of a block mean nothing |
| StatementPrinting.StmtPrintable | src/app/parser.cxx:1066-1222 | a parsed statement has a text, and no `if` with an `else` has a branch that ends in an open `if` |
| StatementPrinting.ParserRange | src/app/parser.cxx:20-82 | the programs that texts parse to are exactly those without a missing child, an unspellable token or a dangling `else` |
| Parser.Parser.constructor | src/app/parser.cxx:20-26 | a new parser has all tokens of the text before it |
| Parser.Parser.CheckToken | src/app/parser.cxx:1239-1254 | tells whether the current token is of the kind and consumes it only then |
| Parser.Parser.CheckBinaryOper | src/app/parser.cxx:1297-1376 | consumes a binary operator of the level, and only such a one |
| Parser.Parser.ParseExpr | src/app/parser.cxx:170-198 | returns the expression of the descent's tree and leaves the descent's rest; it terminates on every token sequence |
| Parser.Parser.ParseExprBinary | src/app/parser.cxx:204-252 | the operator loop builds the tree of its level |
| Parser.Parser.ParseExprUnary | src/app/parser.cxx:258-313 | at most one prefix operator before an operand |
| Parser.Parser.ParseLiteral | src/app/parser.cxx:382-470 | each literal token becomes its value |
| Parser.Parser.ParseExprSuffixed | src/app/parser.cxx:319-352 | the suffix loop builds the tree from the inside |
| Parser.Parser.ParseArgs | src/app/parser.cxx:565-588 | arguments with strict commas, the list possibly empty |
| Parser.Parser.ParseElems | src/app/parser.cxx:652-675 | elements with an optional last comma |
| Parser.Parser.ParseType | src/app/parser.cxx:133-168 | a type reference; an empty argument list is an error |
| Parser.Parser.ParseStmtSymbolDef | src/app/parser.cxx:991-1027 | a definition with its optional type |
| Parser.Parser.ParseStmt | src/app/parser.cxx:723-775 | the statement of the descent, with the semicolon where it needs one |
| Parser.Parser.ParseStmtIf | src/app/parser.cxx:1066-1095 | an `if` with the `else` that follows it |
| Parser.Parser.ParseStmtLoop | src/app/parser.cxx:1097-1168 | a loop with init, condition, step and body, all present |
| Parser.Parser.ParseItems | src/app/parser.cxx:1170-1189 | the statements of a block |
| Parser.Parser.ParseStmtAssignOrCall | src/app/parser.cxx:1191-1222 | an assignment to a suffixed expression, or a call |
| Parser.Parser.ParseModule | src/app/parser.cxx:35-82 | statements up to the end of the text |
| Coder.ModuleCoder.GetValueSymbol | src/omis/model.cpp:62-73 | the search up the scope chain finds the innermost definition |
| Coder.ModuleCoder.IsTerminatorIns | src/omis/model.cpp:524-534 | asked without an instruction, an empty active block has no terminator |
| Coder.ModuleCoder.GetPtrVal | src/omis/llvm/llvm.cxx:703-720 | an address is loaded, any other value stays |
| Coder.ModuleCoder.CloseTail | src/omis/model.cpp:936-944 | the paired tail checks leave the state of `Lowering.FallThrough` |
| Coder.ModuleCoder.EncodeExpr | src/omis/x-module-coder.cpp:209-419 | emits what `Lowering.EncodeExpr` says and fails exactly where it does |
| Coder.ModuleCoder.ExprBranch | src/omis/model.cpp:745-790 | the four blocks of a ternary and their jumps |
| Coder.ModuleCoder.EncodeStmt | src/omis/x-module-coder.cpp:38-190 | emits what `Lowering.EncodeStmt` says and fails exactly where it does |
| Coder.ModuleCoder.StmtSymbolDef | src/omis/model.cpp:806-866 | the initialiser is encoded before the name is bound, so it sees the outer binding |
| Coder.ModuleCoder.StmtBranch | src/omis/model.cpp:919-967 | the three blocks of an `if` |
| Coder.ModuleCoder.StmtLoop | src/omis/model.cpp:969-1036 | the four blocks of a loop, its scope, and the targets restored |
| Coder.ModuleCoder.StmtEnsureTailRet | src/omis/model.cpp:1052-1063 | a return of 0 is added exactly where the active block lacks a terminator |
| Coder.ModuleCoder.EncodeModule | src/omis/x-module-coder.cpp:10-36 | a new coder's fields end as `Lowering.EncodeModule` says |
| Acceptance.AcceptedIff | src/omis/x-module-coder.cpp:10-190 | a program is accepted if and only if its names and types check: names are looked up outwards and redefined in the innermost scope only, operands, conditions, assignments and returns have their types, `break` and `continue` stand in loops |
| Acceptance.ExprAgrees | src/omis/x-module-coder.cpp:209-419 | an expression is accepted if and only if it has a type, and its operand has that type |
| Instructions.AddSub | src/omis/llvm/llvm.cxx:403-446 | a sum is the mathematical one where that is in range and else off by the modulus; subtracting undoes adding |
| Instructions.MulAdds | src/omis/llvm/llvm.cxx:403-446 | a product is repeated addition, and the mathematical one where that is in range |
| Instructions.NegSubtracts | src/omis/llvm/llvm.cxx:388-401 | negation subtracts from zero |
| Instructions.DivMod | src/omis/llvm/llvm.cxx:403-446 | quotient times divisor plus remainder is the dividend; the remainder is smaller than the divisor and has the dividend's sign; defined exactly off zero and the one overflow |
| Instructions.Comparisons | src/omis/llvm/llvm.cxx:469-511 | the six comparisons speak of one total order and yield bools |
| Instructions.NumberOrder | src/omis/llvm/llvm.cxx:469-511 | the order is transitive, has every number below the next, and is kept by sums in range |
| Instructions.ShiftLeft | src/omis/llvm/llvm.cxx:638-650 | shifting to the left doubles once for each place |
| Instructions.ShiftRight | src/omis/llvm/llvm.cxx:652-668 | shifting to the right halves the unsigned number once for each place |
| Instructions.BitByBit | src/omis/llvm/llvm.cxx:554-636 | the bit operations work bit by bit, and the logical ones are they |
| Instructions.FlipBits | src/omis/llvm/llvm.cxx:543-594 | `~` flips the 32 low bits and keeps the others; `!` turns a bool around |
| Instructions.Results | src/omis/llvm/llvm.cxx:403-668 | exactly which binary operations on which operands have a result |
| Instructions.BoolsChoose | src/omis/llvm/llvm.cxx:323-325 | a true bool takes the first branch |
| Structure.FallThroughOnce | src/omis/model.cpp:936-962 | a branch or body that moved the active block left its first block closed, so the paired tail checks emit exactly one jump when control can fall through and none otherwise |
| Structure.FrameStmt | src/omis/model.cpp:792-1050 | a statement changes only the active block and new ones, leaves finished blocks closed, and restores scopes and loop targets |
| Structure.FrameLoop | src/omis/model.cpp:969-1036 | each block of a loop is empty when it becomes active, and the scope chain is restored |
| Structure.ScopeExit | src/omis/model.cpp:148-156 | leaving a block's or loop's scope restores the scope chain |
| Structure.LookupIn | src/omis/model.cpp:62-73 | a name resolves to its innermost definition, and to none only if there is none |
| Structure.ScopedKeeps | src/omis/model.cpp:792-1050 | only a definition changes the names in scope |
| Simulation.RelLookup | src/omis/model.cpp:62-73 | at run time the slot that a name resolves to holds the value of the name's innermost binding |
| Simulation.SimExpr | src/omis/x-module-coder.cpp:209-419 | running an expression's code ends with its value in the operand, or stuck where the expression faults |
| Simulation.ActiveMoves | src/omis/model.cpp:745-790 | an expression moves the active block exactly when it holds a ternary |
| Simulation.ExprOperand | src/omis/llvm/llvm.cxx:48 | an expression's operand is a constant exactly when the expression folds to one, and then it is that one; any other is an address or a register of its own |
| Simulation.PhiKnows | src/omis/model.cpp:784-787 | a ternary's merge has an entry for the taken branch exactly when that branch holds no ternary and, for the second, does not fold to the same constant as the first |
| Simulation.SimTrinary | src/omis/model.cpp:745-790 | a ternary's code ends with the taken branch's value, or stuck at a merge that does not know it |
| Preservation.SimIterations | src/omis/model.cpp:969-1036 | the cond, body and step blocks run the loop's iterations: `continue` goes on with the step, `break` skips step and test |
| Preservation.SimStmt | src/omis/model.cpp:792-1050 | running a statement's code ends where its outcome says, with memory as its bindings |
| Preservation.StrictPreservation | src/omis/x-module-coder.cpp:10-190 | for every accepted scoped program the code returns, faults and diverges exactly as strict evaluation does |
| Meaning.SemanticPreservation | src/omis/x-module-coder.cpp:10-190 | for every accepted scoped program whose merges know their branches the code returns v, faults or diverges if and only if the program does |
| Meaning.TernaryLowering | src/omis/model.cpp:745-790 | a ternary's code yields its value if and only if the taken branch is known to the merge; conditions may hold any ternaries |
| Counterexamples.UnknownMergeFaults | src/omis/model.cpp:784-787 | whenever a merge does not know its branch the program returns and its code is stuck |
| Counterexamples.EqualConstantsFault | src/omis/model.cpp:258-272 | every ternary whose branches fold to the same 32-bit constant is accepted, and its code is stuck on the second branch |
| Counterexamples.EqualBranchesFault | src/omis/model.cpp:784-787 | `false ? 1 : 1` is accepted and its code is stuck |
| Counterexamples.EqualSumsFault | src/omis/model.cpp:784-787 | so is the code of `false ? 1 + 1 : 2` |
| Counterexamples.NestedTernaryFaults | src/omis/model.cpp:784-787 | a ternary inside a branch is accepted and its code is stuck |
| Counterexamples.LeakFaults | src/omis/model.cpp:919-967 | a bare definition as an `if` branch leaks its name, and the code is stuck where the branch was not taken |
| WellFormed.BasicBlocksIff | src/omis/model.cpp:919-1063 | every block has exactly one terminator, in last position, with targets in the function, if and only if no statement stands behind a return, break or continue |
| WellFormed.GoodStmt | src/omis/model.cpp:919-1050 | the inductive form: blocks that enclosing constructs have yet to fill stay empty and all others are basic blocks |
| InitBeforeUse.AnnStmt | src/omis/model.cpp:806-1036 | a statement's code uses only what is known and jumps only where no more is expected, through nested loops, break and continue |
| InitBeforeUse.InitialisedBeforeUse | src/omis/model.cpp:536-542 | on every path from the entry each load comes after a store to the slot and each register use after its definition; merges too when they know their branches |
| TypeSafety.RunTyped | src/omis/model.cpp:806-917 | an accepted program ends only by returning a 32-bit number or, with division, remainder or shifts in it, by a fault |
| TypeSafety.CodeSafe | src/omis/llvm/llvm.cxx:388-667 | accepted code returns only 32-bit numbers and without division, remainder and shifts never gets stuck |
| Operators.EagerIsLazy | src/omis/llvm/llvm.cxx:554-580 | wherever evaluating both operands yields a value it is the value that stopping early yields |
| Operators.EagerExact | src/omis/llvm/llvm.cxx:554-580 | evaluating both operands and stopping early differ if and only if stopping early yields a value and some second operand whose first one decides faults or is no bool |
| ShortCircuit.RunAgrees | src/omis/llvm/llvm.cxx:554-580 | an accepted program does what it does with operators that stop early, unless it faults; it does so always when its second operands hold no division, remainder or shift |
| ShortCircuit.LazyPreservation | src/omis/x-module-coder.cpp:10-36 | the code of such a program returns, faults and diverges exactly as the program with operators that stop early |
| ShortCircuit.GuardedDiffers | src/omis/llvm/llvm.cxx:554-580 | `return (false && 1 / 0 == 1) ? 1 : 2;` is accepted, returns 2 with operators that stop early, and its code is stuck |
| Mutability.ValIsVar | src/omis/x-module-coder.cpp:79-95 | programs that differ in `val` and `var` only are accepted alike, with the same code |
| Mutability.ValReassigned | src/omis/x-module-coder.cpp:79-110 | assigning to a `val` is accepted and takes effect |
| Operators.FlipExact | src/omis/llvm/llvm.cxx:582-594 | `~` flips every bit if and only if the operand is at most 32 bits wide |
| Compiler.Compile | src/app/parser.cxx:20-26 | scanning, parsing and encoding one after the other yield the text's code or fail together |
| Compiler.CompiledIff | src/omis/x-module-coder.cpp:10-36 | a text is compiled if and only if it parses and its names and types check |
| Compiler.LayoutIgnored | src/app/scanner.cxx:119-165 | two texts with the same tokens and any layout are parsed and compiled to the same |
| Compiler.SourceBehaves | src/omis/x-module-coder.cpp:10-36 | a program written as text and compiled behaves as the program |
| ThreadPool.StepKeeps | deps/eokas-base/include/eokas-base/async.h:37-105 | every atomic step of a worker or the client keeps the invariant |
| ThreadPool.Conservation | deps/eokas-base/include/eokas-base/async.h:43-66 | in every interleaving the submitted tasks are the popped ones in order and then the queue, and each popped task was run once by the worker that took it or is in its hand |
| ThreadPool.Accounting | deps/eokas-base/include/eokas-base/async.h:37-70 | never more than 16 threads; idle count, busy workers and the pending increment add up to their number |
| ThreadPool.ConstructorStarts | deps/eokas-base/include/eokas-base/async.h:18-21 | in every interleaving a new pool has as many threads as asked for, up to 16 |
| ThreadPool.ExpandStarts | deps/eokas-base/include/eokas-base/async.h:37-70 | so does every call of `expand` beyond the threads there are |
| ThreadPool.ExecStarts | deps/eokas-base/include/eokas-base/async.h:75-107 | `exec` puts its task at the end of the queue and starts one thread exactly when the idle count that it reads is below 1 and there are fewer than 16 |
| ThreadPool.WorkerTakes | deps/eokas-base/include/eokas-base/async.h:48-61 | a worker with the mutex takes the front task if there is one, and else waits without the mutex |
| ThreadPool.Progress | deps/eokas-base/include/eokas-base/async.h:37-105 | there is no deadlock: until the client is free or gone some thread can take a step |
| ThreadPool.DestructorEnds | deps/eokas-base/include/eokas-base/async.h:23-35 | after the destructor's call no run has more than ten steps for each worker and one more, and it can end only with the client gone |
| ThreadPool.Exclusion | deps/eokas-base/include/eokas-base/async.h:48-61 | one worker at a time holds the mutex, and none takes from an empty queue |
| ThreadPool.Shutdown | deps/eokas-base/include/eokas-base/async.h:23-35 | after the flag is cleared each worker takes at most one more task; when all joins returned every popped task was run |
| ThreadPool.DestructorRuns | deps/eokas-base/include/eokas-base/async.h:23-66 | the destructor leaves exactly the tasks at the end of the queue that exceed the workers past their test of the flag and before taking; all submitted tasks are run if and only if there is none |
| ThreadPool.ShutdownLeavesTask | deps/eokas-base/include/eokas-base/async.h:23-35 | a submitted task can be left in the queue when all threads have been joined |

## Left out

- Function literals, object literals, `struct`, `enum`, `proc`, `import` and `export`: the model's parser rejects them. In the source `struct` with members and `import` are never accepted, the coder rejects `enum`, `proc` and object literals, an `export` emits nothing, and a function literal becomes a function of its own.
- Parser.Parser.ParseExprUnary: behind a prefix operator an operand that fails inside, as in `-(`, crashes the parser, which links the missing operand to its parent; the model returns no expression.
- Typed definitions reach the coder but are never accepted, because no type symbol is registered; the model fails there without looking the name up.
- Calls, strings, arrays, fields and floating-point values in the coder: the model's coder fails on them; floating literals are kept as their text.
- A null handle from the builder (operands of different widths, `!` on a number, an assignment to a value) crashes the compiler or ends in an invalid instruction; the model fails to encode.
- Coder.ModuleCoder.EncodeExpr: of the builder's simplifications the model has the folding of an operation whose operands are constants; that `&` with all ones and `|` with zero on the right are dropped is not modelled, because it changes no value.
- An operation on constants that has no result (`1 / 0`) is emitted as an instruction and stuck; the builder folds it to an undefined constant, on which every operation is undefined.
- Division by zero, an overflowing division and a shift by at least the width have no defined result in the IR; the machine is stuck there.
- `push_scope`, `pop_scope` and `phi` fall off their ends without a return value; the model returns nothing, or the merge.
- The tail check on an empty block would read a null instruction; the model treats the block as unterminated, as the branch checks do.
- The initial break and continue targets, which the constructor does not set, are taken to be null.
- Line and column numbers, error texts and the `parent` pointers of syntax nodes; syntax trees are values.
- A literal's conversion for result types other than 32 bits, and the sign extension above the 32 low bits, which the final conversion cuts off.
- The condition variable: a waiting worker may wake at any time, so wake-ups are not shown to happen; `Progress` and `DestructorEnds` take for granted that a worker in its wait wakes.
- Tasks of the pool that call the pool, and clients other than the one that also destroys it.
- LLVM itself, running or writing the emitted code, files and the command line.
- SemanticPreservation: needs scoped definitions and merges that know their branches; `LeakFaults` and `UnknownMergeFaults` are programs without.
- InitialisedBeforeUse: needs scoped definitions, and for merges that they know their branches.
