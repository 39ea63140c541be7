# OSig:EKE in Dafny

This project models the core of OSig:EKE, a small x86-64 operating system with a
built-in C compiler, and proves what each component is for: the compiler's code
computes what the source means, the filesystem is a map from paths to bytes that
survives a power cut during creation, the allocators hand nothing out twice, the
page tables are a flat map, the scheduler is fair and runs no dead task, and the
editor edits one flat text.

Every imperative source file is a class or a set of methods that update fields and
arrays in place; each method is proved equal to a function on the old state, and the
theorems are about these functions. Where the code and its documentation differ the
code is followed.

## Components

- **Machine and source language.** `Words`, `Memory` and `Machine` are bytes, memory
  and the instructions the generator uses (opcodes and REX prefixes as in the Intel 64
  SDM, Vol. 2, section 2.2.1). `Ast` is the tree and its meaning on signed longs, with
  32-bit local cells and 64-bit parameter cells.
- **Compiler back end** (`compiler/codegen_x86.c`). `Codegen` is the one-pass
  generator as a function on its tables and `Generator` is the code itself. `Layout`
  says which instructions stand where, without labels; `Patching`, `Placement` and
  `BodyPlacement` prove that the linked bytes are laid out so; `Leftovers` follows what
  an earlier compilation left in the fixup table; `Simulation` proves that laid-out code
  runs to the source's result; `Compiler` joins them. `IntSemantics` relates the result
  to 32-bit ints, `Conditions` and `Miscompiled` say where jumps leave C and run two
  programs for which they do, `Prototypes` what a prototype does to the calls.
- **Compiler front end** (`compiler/lexer.c`, `compiler/compiler_compat.c`,
  `compiler/parser.c`). `Arena`, `Lexing` and `LexerRun` are the arena, the token list
  and the scanning code. `Parser` is the Pratt parser as functions, `ParserRun` its
  cursor and symbol table updated in place. `Printing` and `StatementPrinting` prove
  that parsing undoes printing, `Slots` which cell every name stands for and `Scoping`
  when that is the variable C means. `CMeaning` is what C means by the functions read,
  with names, block scope and C's literals, and `CAgreement` proves that the generator's
  trees mean the same. `Lowering` and `Pipeline` join the front end to the compiler
  theorem. `Factorial`, `SourceExample` and `ScopeExample` are worked examples.
- **Storage** (`storage/spmm.cpp`, `modules/fs/eke_fs.cpp`). `Bitmap` and `Spmm` are
  block allocation, `Volume` the disk format and the volume invariant, `FileSystem` the
  operations, `Integrity`, `FileRuns` and `FileHistory` the theorems, `FileExamples` two
  volumes on which the defects show, `TablePage` the memory the file table really has,
  `Device` and `EkeFs` the code. The disk is an array of sectors; sector writes are
  atomic and go out in order.
- **Memory** (`memory/pmm.cpp`, `memory/vmm.cpp`). `Pmm` is the page allocator,
  `PageTables` the four-level tables of the Intel 64 SDM, Vol. 3A, section 4.5, `Vmm` the
  mapping of a page, `MappingLimits` when it fails. `Transfers` follows the page buffers of
  file transfers.
- **Tasks** (`kernel/task.cpp`, `modules/sched/round_robin.cpp`,
  `kernel/module_swap.cpp`, `interrupts/idt.cpp`). `Tasks` is the state machine,
  `Scheduler` the linked list and the queue.
- **Editor** (`editor/editor.cpp`). `EditorText` is lines and flat text, `EditorBuffer`
  the fixed arrays.

## Where the code falls short of its purpose

Each of these is a proved statement, with the exact condition where there is one.

- A negative int in a local comes back as a large positive number
  (`LoadReturnsStored`, `NegativeLocalDiffers`); two locals compare as in C exactly for
  `==`, `!=` or equal signs (`LocalsCompare`).
- A number in the source that is no int is read modulo 2^32 (`LiteralValue`); an octal one
  is read as decimal, which is the same exactly below 8 (`OctalMeaning`). Of C's escapes in
  character constants the parser knows `\n`, `\t`, `\0`, `\\`, `\'`, `\"` and `\?`; `\r`,
  `\a`, `\b`, `\f`, `\v` and `\1` to `\7` stand for the letter or digit (`CharMeaning`).
- The parser takes `+= -= << >>` for `+ - < >` (`TokenSpells`).
- A condition with an arithmetic operator on top compares its operands with `==` instead
  (`EquatedImage`); when that is what C means is said for each operator
  (`ArithmeticConditionMeaning`), and a program is run that takes the wrong branch
  (`SubtractionTested`).
- A jump after a plain test keeps the mark that an earlier compilation left in its
  fixup record. The image is the right one exactly when no record of such a jump is
  marked, save for a name the program does not define and a jump over nothing
  (`LeftoverImage`); a program and table for which the machine gives the wrong result
  are run (`MarkedRecordRuns`).
- `-f(x)` calls the function named by the first token of the file (`MinusInFront`).
- On a token that is no type, comma or closing parenthesis the loop over a parameter list
  stays where it is for ever (`ParamsLoopForever`).
- A block's declarations stay in scope after the block (`MeaningAfter`). Every use is
  resolved as in C exactly when no name is used whose latest declaration was in a block,
  branch or loop that is over (`ScopedAsC`); a function is run that returns 2 where C
  returns 1 (`ScopeExampleRuns`).
- A prototype is emitted as an empty function, and calls go to the first function of
  their name. Prototypes do no harm exactly when none comes before a definition that ever
  returns (`PrototypesHarmlessIff`, `PrototypeFirst`).
- The bitmap sectors cover the device unless the block count leaves a remainder of 1 to
  7 modulo 4096 (`BitmapCovers`).
- Eight table sectors hold 60 entries of 68 bytes, not the 64 a comment in the code
  says: a file in one of the last four slots is gone after a mount (`WrittenSurvives`,
  `SixtyFirstVanishes`).
- Mounting allocates one page for the table, and the last four entries reach 256 bytes
  into the page behind, which the allocator hands to others. The volume is as the theorems
  have it exactly while the bytes 28, 96, 164 and 232 of that page are zero
  (`MountOverPage`); a file that passes through that page as a buffer spoils them unless
  it has zero bytes there (`BufferDeceives`), and can make a file appear that nobody
  wrote (`FileNobodyWrote`).
- A failed overwrite leaves the old file's blocks released (`FailedWriteSafe`,
  `OverwriteUnsafe`).
- Page allocation overlooks free runs exactly when there are some and all of them start
  below its hint (`OverlooksRuns`), as happens after an allocation of two pages
  (`FreePageOverlooked`); with single pages it does not (`SinglePagesComplete`).
- Mapping a page works, given the pages it needs, exactly when the address does not lie in
  a large page (`MapsIffNoLargePage`), so after booting exactly outside the first gigabyte
  (`BootMapsIff`); inside it eight bytes of memory are overwritten and no address
  translates differently (`BootOverwrites`, `BootExample`), unless a table is overwritten.
- Mapping without a free page makes page 0 a table. It still does what it promises when
  only the last level was missing; when higher ones are, almost never, and
  `MapsIffLastTable` says exactly when. Where the address leads then, and that page 0
  itself becomes mapped, is said for every level (`FailedPaths`, `AfterFailure`) and shown
  on a machine whose pages run out (`PagesRunOut`).
- A file transfer takes as many pages as its blocks need and gives the first one back. It
  loses none exactly for files of at most eight blocks (`LeaklessIff`); longer transfers
  use the memory up, and when the next one fails is said exactly (`TransfersRunOut`).
- The 33rd and later tasks wait until a swap moves them forward (`OnlyTheFrontRuns`,
  `RunsIffQueued`, `LastOfMany`); the repository's own documentation promises fault
  isolation for every program, but a fault of the idle task halts the machine and is no
  step of the model.
- Loading a file with 128 or more newlines leaves the editor's arrays (`LoadFits`);
  saving truncates texts over 8100 characters, with one exception (`SaveThenLoad`).
  Opening a file and saving it unchanged keeps it exactly when it also has no line of more
  than 73 characters and no carriage return (`OpenThenSave`): loading drops the rest.

## Model

| member | source | states |
|---|---|---|
| Pipeline.SourceRuns | compiler/compiler.c:25-39 | Source text that lexes and parses to plain functions: the linked image, loaded anywhere, runs any of its functions to the value the source gives (number tokens as the parser reads them), back to the caller with rbp and rsp restored and nothing changed above the parameter cells |
| Pipeline.SourceRunsOnInts | compiler/compiler.c:25-39 | The same for the parsed trees read over 32-bit ints: whenever the call has a result there and no negative number is stored in a local on the way, that int is in rax |
| Pipeline.SourceRunsAsC | compiler/compiler.c:25-39 | The same against C, with names by block scope and literals as C writes them, for every text the parser reads as C does, in the common part of both languages, that uses no name whose latest declaration is out of scope: whenever C gives a call on ints a result and no negative number is stored in a local on the way, that int is in rax |
| CAgreement.ApplyFollows | compiler/parser.c:1123-1202 | For such functions the trees the generator gets mean over ints what C means, calls, loops and nested blocks included |
| Scoping.ScopedAsC | compiler/parser.c:118-125 | In every function read, all names have the slot of the declaration C finds for them exactly when no name is used whose latest declaration was in a block, branch or loop that is over |
| ScopeExample.ScopeExampleRuns | compiler/parser.c:118-125 | From the characters of a text with such a name to the register: the machine code returns 2, C gives 1 |
| CMeaning.OctalMeaning | compiler/compiler_compat.c:53-64 | An octal constant is read as the number C means exactly when it is below 8 |
| CMeaning.CharMeaning | compiler/parser.c:221-239 | A character constant stands for the character C means exactly when it is no escape or one the parser knows |
| Prototypes.StubbedImage | compiler/codegen_x86.c:564-580 | A program with prototypes has the image, the entries and the limits of the program with empty functions in their place |
| Prototypes.PrototypesHarmlessIff | compiler/codegen_x86.c:239-246 | Every call means what it means without the prototypes exactly when no prototype comes before a definition that ever returns |
| Prototypes.PrototypesRun | compiler/codegen_x86.c:564-580 | Then the machine runs the program as that of its definitions |
| Prototypes.PrototypeFirst | compiler/codegen_x86.c:239-246 | A prototype and a definition that returns 1: the call gives no value |
| SourceExample.SourceExampleRuns | compiler/compiler.c:25-39 | An instance from the characters on: a text meets all conditions and its machine code returns its number |
| SourceExample.SourceIsPortable | compiler/compiler.c:25-39 | The same text meets the conditions of the statement against C |
| Compiler.CompiledCallCorrect | compiler/codegen_x86.c:548-612 | Semantic preservation end to end for every good program within the table limits, loops, early returns, forward references and recursion included, from any fixup table whose leftovers are harmless |
| Factorial.FactorialRuns | compiler/codegen_x86.c:548-612 | An instance: the image of a recursive factorial, compiled after anything, leaves n! in rax for every n up to 20 |
| Compiler.ProgramPlaced | compiler/codegen_x86.c:564-590 | In the linked bytes the function of every name stands at its entry with all labels and calls resolved |
| Compiler.LeftoverImage | compiler/codegen_x86.c:321-333 | Compiled over any fixup table: the linked image equals the one from a table without call marks exactly when every marked record that a test jump takes over names no function of the program and belongs to a jump that skips nothing |
| Leftovers.ImagesAgree | compiler/codegen_x86.c:198-219 | Two compilations whose records differ in such marks alone link to the same bytes exactly when each mark is harmless, all other bytes being the same |
| Leftovers.StmtAlike | compiler/codegen_x86.c:302-430 | A statement compiled over a table with marks and over one without gives the same code, labels and records but for the marks of its test jumps, which lie where the layout says |
| Leftovers.JumpsLand | compiler/codegen_x86.c:321-335 | In finished code each test jump of a statement goes to the destination the layout gives it |
| Miscompiled.MarkedRecordRuns | compiler/codegen_x86.c:329-333 | A program with a plain test, compiled over a first record marked as a call of an undefined function: its machine code returns 1 where the source gives 0 |
| Compiler.FindSymbol | compiler/codegen_x86.c:230-246 | Looking a name up among the registered functions gives the entry of the first function of that name, or -1 when it is not yet registered |
| Simulation.ExprSim | compiler/codegen_x86.c:342-365 | Code laid out for an expression pushes exactly its value and changes no memory above the old stack top |
| Simulation.CallSim | compiler/codegen_x86.c:494-521 | A call pushes one value, its arguments removed, the caller's pending temporaries intact |
| Simulation.ApplySim | compiler/codegen_x86.c:114-132 | A called function returns to its caller with rbp and rsp restored, having changed nothing above its parameter cells, whatever its statements left on the stack |
| Simulation.CondSim | compiler/codegen_x86.c:302-336 | A condition's code jumps exactly when the condition has the requested truth value |
| Simulation.StmtSim | compiler/codegen_x86.c:367-430 | A statement's code ends behind it with the variables as the source says and a known amount of junk on the stack, or leaves the function with the returned value |
| Simulation.WhileSim | compiler/codegen_x86.c:403-414 | The same for loops, over any number of iterations |
| Simulation.ItemsSim | compiler/codegen_x86.c:416-430 | The same for the statements of a block, declarations with initial values included |
| Simulation.LoadSim | compiler/codegen_x86.c:64-80 | The load of a slot pushes the zero-extended local or the 64-bit parameter |
| Simulation.StoreSim | compiler/codegen_x86.c:82-98 | The store writes exactly the cell of its slot |
| Simulation.PrologueSim | compiler/codegen_x86.c:114-122 | After the prologue every passed argument is in its parameter cell and the frame is reserved below |
| Simulation.ArithSim | compiler/codegen_x86.c:46-62 | add, sub, imul and cqo/idiv compute wrapping long arithmetic and truncating division |
| Ast.ParamSlotIndex | compiler/codegen_x86.c:64-71 | The slot the parser gives parameter k is read back as parameter k |
| Machine.DecodeEncode | compiler/codegen_x86.c:36-62 | The bytes emitted for an instruction decode to that instruction |
| Machine.EncodeDecode | compiler/codegen_x86.c:11-34 | Bytes that decode are exactly the encoding of what they decode to, so decoding is unique |
| Machine.FlagsDecideCompare | compiler/codegen_x86.c:172-187 | The flags of a comparison satisfy each condition code exactly when the signed comparison holds |
| Placement.ExprPlaced | compiler/codegen_x86.c:342-365 | Generated and linked code of an expression stands where its generation began |
| BodyPlacement.CondPlaced | compiler/codegen_x86.c:302-336 | The same for conditions, the jump landing on its label |
| BodyPlacement.StmtPlaced | compiler/codegen_x86.c:367-430 | The same for statements, all jumps landing on instruction boundaries |
| Placement.EmitCallLinked | compiler/codegen_x86.c:499-513 | A call, known or resolved by a fixup, targets the entry of its function |
| Patching.LinkedMiss | compiler/codegen_x86.c:198-219 | Linking changes only placeholder bytes |
| Patching.LinkedFixup | compiler/codegen_x86.c:198-219 | Each resolved fixup's four bytes hold the displacement to its target |
| Patching.LeaLinked | compiler/codegen_x86.c:262-297 | Each string's lea points at the string's own unescaped, NUL-terminated bytes |
| IntSemantics.ExecAgrees | compiler/codegen_x86.c:64-97 | Whenever C's int meaning is defined and no negative number is stored in a local, the machine meaning is the same |
| IntSemantics.LoadReturnsStored | compiler/codegen_x86.c:73-97 | Storing and loading a local returns the number stored exactly when it is not negative |
| IntSemantics.LocalsCompare | compiler/codegen_x86.c:172-187 | Comparing two locals agrees with C exactly for equality operators or operands of the same sign |
| IntSemantics.NegativeLocalDiffers | compiler/codegen_x86.c:73-76 | A program for which the C meaning and the code's result differ |
| IntSemantics.RingExecCongruent | compiler/codegen_x86.c:41-62 | Straight-line programs over + - * compute 32-bit two's complement arithmetic in every local |
| Conditions.ArithmeticCondition | compiler/codegen_x86.c:187-187 | A condition with an arithmetic operator on top skips the body exactly when the operands differ |
| Conditions.ArithmeticConditionMeaning | compiler/codegen_x86.c:304-319 | When comparing the operands amounts to testing the result, for each operator: sums of equal operands other than 0 and the least long or of opposite ones, never for differences, products by whether they wrap to 0, quotients of equal operands or zero |
| Conditions.EquatedImage | compiler/codegen_x86.c:172-188 | Every program has the very image of the program with == in place of each arithmetic operator on top of a condition |
| Conditions.ArithmeticConditionRuns | compiler/codegen_x86.c:304-319 | So the machine code of such a program computes what that other program means |
| Miscompiled.SubtractionTested | compiler/codegen_x86.c:304-319 | A program that tests x - y: its machine code returns 1 exactly for equal operands, C for different ones |
| Generator.CodeGenerator.CodegenX86Emit | compiler/codegen_x86.c:548-612 | As long as no write leaves the string pool and no patch the code buffer, the buffer ends up as the patched image of the specification, whatever did not fit the other tables; for a program that fits it is the linked image, and every function is in place when the leftovers in the fixup table are harmless |
| Generator.WhenItFits | compiler/codegen_x86.c:548-612 | A good program within the table limits writes and patches inside pool and buffer, over any fixup table, and its strings start where linking takes them to start |
| Generator.CodeGenerator.GenExpr | compiler/codegen_x86.c:338-545 | The tables become those of the expression generator |
| Generator.CodeGenerator.GenStmt | compiler/codegen_x86.c:367-430 | The tables become those of the statement generator |
| Generator.CodeGenerator.GenIf | compiler/codegen_x86.c:385-401 | The same for if, with its two labels |
| Generator.CodeGenerator.GenWhile | compiler/codegen_x86.c:403-414 | The same for while |
| Generator.CodeGenerator.GenCondition | compiler/codegen_x86.c:302-336 | The same for conditions, the comparison inverted for a jump on false |
| Generator.CodeGenerator.GenArgs | compiler/codegen_x86.c:432-438 | Collects at most 32 arguments and pushes them last to first |
| Generator.CodeGenerator.EmitCondJump | compiler/codegen_x86.c:172-196 | Compare and jump with a fresh fixup |
| Generator.CodeGenerator.AllocLabel | compiler/codegen_x86.c:147-153 | A fresh unmarked label |
| Generator.CodeGenerator.MarkLabel | compiler/codegen_x86.c:155-159 | The label stands at the current end of the code |
| Generator.CodeGenerator.AddToStringPool | compiler/codegen_x86.c:262-287 | Appends the unescaped text of the literal, cut where the pool is full, and its terminator |
| Generator.CodeGenerator.PatchFixups | compiler/codegen_x86.c:198-219 | Patches every resolvable fixup in place |
| Generator.CodeGenerator.PatchStrFixups | compiler/codegen_x86.c:289-297 | Patches every string reference in place |
| Arena.ForwardCopy | compiler/compiler_compat.c:46-51 | A forward copy onto a range above its source repeats the bytes between the two starts and touches nothing else |
| Arena.ReallocKeeps | compiler/compiler_compat.c:143-164 | Reallocation puts the old contents first although it reads past the old block, stays inside the arena, changes nothing below the old top, and fails exactly when the block does not fit |
| Arena.CompilerArena.CompCalloc | compiler/compiler_compat.c:143-154 | A zeroed block at the old top, aligned to eight bytes, or none |
| Arena.CompilerArena.CompRealloc | compiler/compiler_compat.c:156-164 | The new block after the overlapping copy |
| Lexing.LexTiles | compiler/lexer.c:164-229 | For sources with closed quotes the tokens cover the text: nothing but blanks and comments lies between them, words and numbers are maximal, quoted tokens end at their first closing quote, and only the last token is an end marker |
| Lexing.TilesOrdered | compiler/lexer.c:164-229 | Tokens are disjoint and in order |
| Lexing.SkipIsGap | compiler/lexer.c:174-188 | What is skipped before a token is blanks and whole comments, and the token starts with neither |
| LexerRun.TokenReadBack | compiler/lexer.c:10-16 | Every stored token can be read back at its index |
| LexerRun.FindLength | compiler/lexer.c:27-59 | The scanning loops find the length of the token |
| LexerRun.Lexer.PushToken | compiler/lexer.c:10-22 | The token is appended and all earlier ones are kept, also when the array doubles; it fails only when the arena cannot hold the doubled array |
| LexerRun.Lexer.Grow | compiler/lexer.c:17-21 | Doubling keeps every token and restores room for two more |
| LexerRun.Lexer.InitLexer | compiler/lexer.c:164-229 | On success the array holds exactly the token list of the text; a text whose tokens fit the arena succeeds |
| FrontEnd.LexedTokensEnd | compiler/lexer.c:226-228 | A lexed token list ends in its one end marker, as the parser needs |
| FrontEnd.TokenSpells | compiler/lexer.c:27-59 | A lexed token means to the parser what its characters spell, but for += -= << >>, of which it sees the first character |
| Parser.FindSymbol | compiler/parser.c:118-125 | The latest symbol of a name, or -1 when there is none |
| Parser.ParseExpr | compiler/parser.c:488-496 | Expression parsing stops with a tree or an abort, consumes at least one token and never passes the end marker |
| Parser.ParseStmt | compiler/parser.c:1123-1202 | The same for statements and the mutual recursion with blocks, if, while, for and declarations |
| Parser.ParseFunction | compiler/parser.c:544-607 | The same for functions |
| Parser.ParamsLoopForever | compiler/parser.c:558-588 | The parameter loop comes to an end or an abort exactly on the lists that the other theorems ask for |
| Printing.ParseUndoesPrint | compiler/parser.c:127-162 | Printing a tree of literals, names, calls and binary operators with minimal parentheses and parsing it, anywhere in a token list, returns the same tree and consumes exactly its tokens |
| Printing.GroupsAsC | compiler/parser.c:127-162 | Three operands without parentheses group as the levels of the C grammar say |
| Printing.LeftAssociative | compiler/parser.c:470-484 | Operators of equal precedence written without parentheses group to the left |
| Printing.MinusInFront | compiler/parser.c:178-189 | A minus sign negates every operand except a call, which it breaks |
| StatementPrinting.ParseUndoesPrintStmt | compiler/parser.c:901-991 | Printing any statement and parsing it returns the tree with the slots of its scope; an else goes to the nearest if that can take it |
| Slots.FunctionCells | compiler/parser.c:609-758 | The locals of a function, nested blocks included, get pairwise different cells 0, 4, 8, ... that fill exactly its local bytes |
| Slots.ParamsNumbered | compiler/parser.c:554-587 | Parameter k gets slot -12 - 4k |
| Slots.MeaningAfter | compiler/parser.c:118-125 | After a statement a name stands for the last declaration of it read, also one in a finished block |
| Slots.StmtBound | compiler/parser.c:1123-1202 | Every name and slot in a parsed statement is that of the latest declaration read before it |
| Lowering.ParsedFunctionGood | compiler/parser.c:544-607 | A parsed function that declares its variables before use meets every condition of the compiler theorem |
| Lowering.LiteralValue | compiler/compiler_compat.c:53-64 | A number token stands for the number it writes modulo 2^32, so for that number exactly when it is below 2^31 |
| ParserRun.TokenParser.ParseExpression | compiler/parser.c:488-496 | The loop returns the tree of the specification and leaves the cursor behind it |
| ParserRun.TokenParser.ParseNud | compiler/parser.c:165-283 | The same for prefix positions |
| ParserRun.TokenParser.ParseLed | compiler/parser.c:395-411 | The same for operators and calls, with the argument loop |
| ParserRun.TokenParser.ParseStatement | compiler/parser.c:1123-1202 | Tree, cursor, symbols and next offset as the specification says |
| ParserRun.TokenParser.ParseBraces | compiler/parser.c:499-528 | The same for blocks |
| ParserRun.TokenParser.ParseForStmt | compiler/parser.c:933-991 | The same for for statements, whose third part is read before the body |
| ParserRun.TokenParser.ParseDeclaration | compiler/parser.c:609-758 | The same for declarations, whose base offset moves after the last declarator |
| ParserRun.TokenParser.ParseFunctionDef | compiler/parser.c:544-607 | The same for functions |
| Bitmap.SetBitFacts | storage/spmm.cpp:7-17 | Setting or clearing a bit changes no other |
| Bitmap.FullWordBits | storage/spmm.cpp:68-71 | A word is all ones exactly when its 64 blocks are taken |
| Spmm.AllocRunComplete | storage/spmm.cpp:109-139 | Contiguous allocation returns the lowest start of that many free blocks, fails exactly when there is none, marks just those and keeps the free count right |
| Spmm.AllocOneComplete | storage/spmm.cpp:58-107 | Single allocation fails exactly when no block from 1 on is free, and otherwise takes a free one and marks only it |
| Spmm.AllocOneLowest | storage/spmm.cpp:58-107 | While the hint bounds the free blocks from below, the lowest free block is taken |
| Spmm.HintRuns | storage/spmm.cpp:141-156 | Over every run of single-block operations the hint stays such a bound and the free count stays right |
| Spmm.FreeRunFacts | storage/spmm.cpp:158-165 | Freeing a run clears exactly its blocks and keeps the count right |
| Spmm.FreedRunFits | storage/spmm.cpp:109-165 | What a run released can be taken again |
| Spmm.MarkFirstFacts | storage/spmm.cpp:173-183 | Marking the metadata blocks marks exactly these |
| Device.BlockDevice.Init | storage/spmm.cpp:28-56 | Adopting a loaded bitmap counts its free blocks |
| Device.BlockDevice.Alloc | storage/spmm.cpp:58-107 | The word-skipping search equals the plain cyclic scan from the hint's word |
| Device.BlockDevice.AllocContiguous | storage/spmm.cpp:109-139 | The one-pass run counter equals first fit |
| Device.BlockDevice.Free | storage/spmm.cpp:141-156 | Clears the block, counts it and lowers the hint, unless it is block 0, outside or already free |
| Device.BlockDevice.FreeContiguous | storage/spmm.cpp:158-165 | The same for a run |
| Device.BlockDevice.MarkUsed | storage/spmm.cpp:173-183 | Marks a free block inside the device |
| Device.BlockDevice.WriteSectors | modules/disk/ramdisk.cpp:27-33 | Sectors are written one after the other |
| Volume.BitmapCovers | modules/fs/eke_fs.cpp:78-78 | The bitmap sectors have a bit for every block exactly when the remainder modulo 4096 is 0 or at least 8 |
| Volume.EntryRoundTrip | modules/fs/eke_fs.cpp:23-30 | A stored file entry reads back the same |
| Volume.NameRoundTrip | modules/fs/eke_fs.cpp:48-55 | A name of at most 31 bytes reads back from its field |
| Volume.SuperRoundTrip | modules/fs/eke_fs.cpp:69-102 | A stored superblock reads back the same |
| FileSystem.PrefixStage | modules/fs/eke_fs.cpp:230-243 | Any prefix of the writes of a file is a stage: data, then bitmap, then table |
| FileSystem.StageEntryNew | modules/fs/eke_fs.cpp:23-30 | An entry cut in two by a stop is still dead or already complete, since its used byte comes last |
| Integrity.MountSafe | modules/fs/eke_fs.cpp:104-153 | Mounting a disk with a consistent table gives a safe volume with the metadata blocks marked |
| Integrity.RemountKeepsFiles | modules/fs/eke_fs.cpp:104-153 | Mounting what is on disk gives the same files and the same free count, and leaks nothing |
| Integrity.FreshExtent | modules/fs/eke_fs.cpp:205-219 | The extent of a write lies in the data area apart from all other files |
| FileRuns.WriteRefines | modules/fs/eke_fs.cpp:182-246 | A successful write stores exactly the data under the path, leaves other files alone, keeps the volume invariant and leaks no block |
| FileRuns.WriteFailures | modules/fs/eke_fs.cpp:182-219 | Which failures a write reports and when; for a new name they change nothing and mean that no such run is free |
| FileRuns.FailedWriteSafe | modules/fs/eke_fs.cpp:190-219 | A write without room keeps the volume safe exactly when the name is new |
| FileRuns.RewriteNeverFull | modules/fs/eke_fs.cpp:185-219 | Rewriting a file in no more blocks than it holds never reports a full disk |
| FileRuns.WrittenSurvives | modules/fs/eke_fs.cpp:80-80 | A written file survives the next mount exactly when its slot is one of the 60 that eight sectors hold |
| FileExamples.SixtyFirstVanishes | modules/fs/eke_fs.cpp:80-80 | On an empty volume with room a history of 60 writes stores 60 files; the next write succeeds and its file is gone after a mount |
| FileExamples.OverwriteUnsafe | modules/fs/eke_fs.cpp:190-219 | On a device of eleven sectors an overwrite fails and leaves a volume that is not safe |
| TablePage.LoadFillsPage | modules/fs/eke_fs.cpp:142-148 | Reading the stored table fills its page and leaves the page behind, into which the last entries reach, as it is |
| TablePage.MountOverPage | modules/fs/eke_fs.cpp:142-166 | A volume mounted over any contents of the page behind is safe exactly when the four used bytes there are zero, and shows just the stored files exactly when every live entry there has the name of a stored file |
| TablePage.BufferDeceives | modules/fs/eke_fs.cpp:221-232 | When that page serves as the buffer of a file, its entries stay dead exactly when the file has zero bytes at the four offsets |
| TablePage.FileNobodyWrote | modules/fs/eke_fs.cpp:221-232 | A file of 97 bytes after whose passage a file is found that nobody wrote |
| FileRuns.CreateIsCrashAtomic | modules/fs/eke_fs.cpp:221-246 | Stop after any number of the sector writes of a creation and mount: the volume is safe, other files read as before, the new file is absent or complete, and it is complete at the end |
| FileHistory.DeleteRefines | modules/fs/eke_fs.cpp:260-277 | Deleting removes that path only, keeps the invariant and frees its blocks |
| FileHistory.FormatMountsEmpty | modules/fs/eke_fs.cpp:69-102 | A formatted device mounts as a safe, empty volume with every data block free |
| FileHistory.FirstFileFits | modules/fs/eke_fs.cpp:182-246 | The first file of an empty volume is stored exactly when the data area has room for it |
| FileHistory.HistoryRefinesMap | modules/fs/eke_fs.cpp:104-277 | Over every history of successful writes, deletes, remounts and creations cut short by a power failure the volume holds what a map from paths to bytes holds, each cut creation done or not done, and keeps its invariant |
| EkeFs.FileSystem.FindFile | modules/fs/eke_fs.cpp:159-166 | The first live entry of that name |
| EkeFs.FileSystem.ReadFile | modules/fs/eke_fs.cpp:156-180 | Copies the first min(size, limit) bytes of the file and reports how many, or -1 |
| EkeFs.FileSystem.GetSize | modules/fs/eke_fs.cpp:249-258 | The size, or 0 for a missing file |
| EkeFs.FileSystem.Format | modules/fs/eke_fs.cpp:69-102 | Writes exactly the sectors of a fresh volume |
| EkeFs.FileSystem.Mount | modules/fs/eke_fs.cpp:104-153 | Table, bitmap and free count as the specification mounts the disk |
| EkeFs.FileSystem.WriteFile | modules/fs/eke_fs.cpp:182-246 | Return code, volume and sector writes as the specification says |
| EkeFs.FileSystem.DeleteFile | modules/fs/eke_fs.cpp:260-277 | The same for deletion |
| EkeFs.StrEq | modules/fs/eke_fs.cpp:39-46 | Compares a stored name with a path up to the terminator |
| EkeFs.StrCopy | modules/fs/eke_fs.cpp:48-55 | Copies at most 31 bytes and a terminator |
| Pmm.AllocPagesLowest | memory/pmm.cpp:45-85 | Allocation returns the lowest run at or above the hint disjoint from all live pages, 0 exactly when there is none, then changing nothing; only the run's bits change |
| Pmm.NeverTwice | memory/pmm.cpp:14-96 | Over every run that frees only live pages the next allocation returns pages that are not live and lie past the kernel |
| Pmm.SinglePagesComplete | memory/pmm.cpp:45-96 | When only single pages are taken, allocation fails exactly when every page past the kernel is live |
| Pmm.OverlooksRuns | memory/pmm.cpp:45-96 | Over every run that frees only live pages: an allocation fails although there is a free run exactly when there are free runs and all of them start below the hint |
| Pmm.FreePageOverlooked | memory/pmm.cpp:45-96 | A run of four steps after which the next page taken is not the lowest free one, and one of five after which a single page is refused although one is free |
| Pmm.InitialAccounted | memory/pmm.cpp:14-26 | The initial bitmap and hint account for all pages past the kernel although part of a word is unmarked |
| Transfers.TransferLeaks | modules/fs/eke_fs.cpp:164-173 | A transfer that gets its buffer leaves all pages of it but the first in use; one that gets none changes nothing |
| Transfers.LeaklessIff | modules/fs/eke_fs.cpp:164-173 | It loses no page exactly when the file has at most eight blocks |
| Transfers.TransfersRunOut | modules/fs/eke_fs.cpp:164-173 | After t transfers of n pages each, n above 1, exactly the pages behind the first of each buffer are lost, and the next transfer gets a buffer exactly when t + 1 buffers fit behind the kernel |
| Pmm.PageAllocator.Alloc | memory/pmm.cpp:45-85 | The restarting search equals the lowest run from the hint |
| Pmm.PageAllocator.Free | memory/pmm.cpp:87-96 | Clears the page's bit and lowers the hint |
| PageTables.PathIsPage | memory/vmm.cpp:17-20 | Two addresses have the same four indices exactly when they lie in the same page |
| PageTables.AddTableWalk | memory/vmm.cpp:22-47 | A new empty table changes no translation |
| PageTables.LeafWalk | memory/vmm.cpp:49-49 | A leaf entry changes the translation of its own page only |
| Vmm.EmptyRoot | memory/vmm.cpp:11-15 | A cleared root page is an address space that translates nothing |
| Vmm.MapPageRefines | memory/vmm.cpp:11-53 | After mapping, the page translates to its frame, flags and Present, every other page as before, the tables are a tree with no shared page, and no memory outside them changed, whichever levels were created |
| Vmm.RunsRefineMap | memory/vmm.cpp:11-53 | Over every run of mappings each address translates as the latest mapping of its page says |
| Vmm.LargePageOverwritten | memory/vmm.cpp:40-49 | When the walk meets a large page at the third level, one cell of that page is overwritten and every address translates as before |
| MappingLimits.MapsIffNoLargePage | memory/vmm.cpp:11-53 | For every tree of tables, given the pages it needs: after mapping, the page translates to the new leaf and every other page as before exactly when the address lay in no large page |
| MappingLimits.FailedPaths | memory/vmm.cpp:22-49 | When the first table that cannot be allocated is that of some level, page 0 holds a known table linked to itself; only addresses sharing the path down to that level are affected, none of them translated before, and all of them go through page 0; at the last level the tables are a tree again |
| MappingLimits.MapsIffLastTable | memory/vmm.cpp:22-49 | Mapping then still does what it promises exactly when that is the last level, or all lower indices are equal and the frame that is mapped happens to serve as a table |
| MappingLimits.AfterFailure | memory/vmm.cpp:22-49 | Where the mapped address leads then, for every level and all indices; and an address that led nowhere that now maps page 0 |
| MappingLimits.FailureLevel | memory/vmm.cpp:22-49 | When the tables end at some level and n pages are left, allocation fails first n levels below |
| MappingLimits.BootMapsIff | kernel/boot.s:60-80 | In the address space of the boot code mapping does what it promises exactly outside the first gigabyte |
| MappingLimits.BootOverwrites | kernel/boot.s:60-80 | Inside the first gigabyte one cell at the start of the large page is overwritten and, when no table lies there, every address translates as before |
| MappingLimits.BootExample | kernel/boot.s:60-80 | A page mapped right after booting: its entry lands in the sixth cell of memory, and the page translates as before |
| MappingLimits.PagesRunOut | memory/vmm.cpp:22-49 | On that machine with no, one or two pages left: the page is not mapped, is mapped with page 0 made writable beside it, or is mapped as promised |
| Vmm.AddressSpace.MapPage | memory/vmm.cpp:11-53 | Memory and allocator become those of the specification, large pages and failing allocation included, as long as the tables met lie in memory |
| Vmm.AddressSpace.NextTable | memory/vmm.cpp:22-29 | One level: an empty entry gets a cleared new table, page 0 when there is none |
| Tasks.NextIsLive | kernel/task.cpp:68-76 | In every run the task picked is live |
| Tasks.FaultedNeverRuns | interrupts/idt.cpp:89-99 | A faulted task never runs again, whatever happens later |
| Tasks.RunsWithin | modules/sched/round_robin.cpp:18-29 | A live queued task runs within as many picks as positions before it, plus one for each task created meanwhile |
| Tasks.RunsWithinQueue | modules/sched/round_robin.cpp:18-29 | In particular within as many picks as the queue is long |
| Tasks.SwapRebuilds | kernel/module_swap.cpp:9-59 | After a swap the list holds exactly its live members in order and the queue the first 32 of them, so all when there are at most 32 |
| Tasks.OnlyTheFrontRuns | modules/sched/round_robin.cpp:10-16 | Only the first 32 tasks of the list can be picked |
| Tasks.RunsIffQueued | modules/sched/round_robin.cpp:10-29 | Given enough picks and no swap, a live task of the list runs exactly when it is queued |
| Tasks.LastOfMany | modules/sched/round_robin.cpp:10-16 | With 32 tasks created beside the idle one, the last is alive and never runs until a swap |
| Tasks.SavedUntilResumed | kernel/task.cpp:68-76 | A preempted task resumes with the registers it was preempted with |
| Tasks.RunSane | kernel/task.cpp:19-76 | In every run the queue is the front of the list, the idle task comes first and stays alive, pids are distinct and the running task is listed and live |
| Scheduler.RoundRobin.AddTask | modules/sched/round_robin.cpp:10-16 | Appends to the queue unless it is full |
| Scheduler.RoundRobin.PickNext | modules/sched/round_robin.cpp:18-29 | The next live task after the current index, going round once |
| Scheduler.TaskList.CreateTask | kernel/task.cpp:31-65 | The new record is the tail of the list and the state machine's create step is done |
| Scheduler.TaskList.ScheduleNextTask | kernel/task.cpp:68-76 | The tick step; returns the next task's saved registers |
| Scheduler.TaskList.FaultIsolation | interrupts/idt.cpp:89-99 | The fault step |
| Scheduler.TaskList.PruneAndFeed | kernel/module_swap.cpp:22-46 | The walk unlinks exactly the dead records, keeps the rest linked in order with the tail last, and queues each live one once |
| Scheduler.TaskList.SwapScheduler | kernel/module_swap.cpp:9-59 | The swap step |
| EditorText.KeyRefinesEdit | editor/editor.cpp:249-373 | Every key is an insertion, a deletion or a move in the newline-joined text at the flat position, and keeps cursor, column and line limits |
| EditorText.SaveThenLoad | editor/editor.cpp:111-142 | Saving writes the text in full exactly when it has at most 8100 characters or is one newline longer; loading it gives the lines back |
| EditorText.OpenThenSave | editor/editor.cpp:63-128 | Opening a file and saving it unchanged keeps it exactly when it has no carriage return, no line of more than 73 characters, at most 127 newlines, and saving writes it in full |
| EditorText.LoadFits | editor/editor.cpp:88-108 | Loading stays inside the arrays exactly when the file has at most 127 newlines |
| EditorBuffer.Editor.Handle | editor/editor.cpp:249-373 | The arrays change as the key says, in lines and in flat text |
| EditorBuffer.Editor.TypeChar | editor/editor.cpp:363-373 | Inserts a character in its row |
| EditorBuffer.Editor.TypeTab | editor/editor.cpp:349-360 | Inserts up to four spaces |
| EditorBuffer.Editor.TypeBackspace | editor/editor.cpp:281-315 | Deletes a character or merges lines |
| EditorBuffer.Editor.TypeEnter | editor/editor.cpp:318-346 | Splits the line and moves the lower ones down |
| EditorBuffer.Editor.LoadFile | editor/editor.cpp:88-108 | The rows hold the loaded lines, or the load would leave the arrays |
| EditorBuffer.Editor.SaveFile | editor/editor.cpp:117-128 | The output buffer holds the saved text |

## Left out

- Compiler: calls of the built-in names printf, print, kprintf and putc; pointers,
  globals, arrays, structs, `%`, `++`, `--`, break and continue, for which the generator
  emits nothing or not the C meaning.
- Generator.CodeGenerator.CodegenX86Emit: requires that no string is added behind the end of
  the pool and no patch reaches behind the code buffer, where the code writes into what
  follows them.
- Compiler: stack exhaustion; a run must have the stack its depth asks for. Code lives
  apart from data memory, so code that overwrites itself is not modelled.
- Compiler: names longer than 63 characters, for which the symbol table has no room, are
  excluded by a precondition.
- Pipeline: texts with prototypes; `Prototypes` treats them on the generator's input.
- Compiler: the module header's other fields, debug printing, and the error exit by
  longjmp, which is an abort result here.
- Pipeline.SourceRuns: assumes that the arena holds the trees, that the 1024 symbols
  suffice and that `compiler/sema.c`, which is not part of this model, does not reject
  the text. A number that is no int overflows in the parser's C code; the accumulation is
  taken to wrap, as the machine's does.
- Parser.ParseStmt: aborts on a scalar initialiser in braces, as in `int x = {5};`, which
  the code accepts and gives a value its generator does not understand.
- ParserRun.TokenParser.ParseDeclaration: the same.
- Parser: tokens `& ++ -- [ ] . ->` and struct, break, continue and typedef; global
  declarations; the limit of 1024 symbols.
- Lexer: sources with an unclosed quote, on which the scan leaves the text, and characters
  outside ASCII.
- EKE-FS: power failure during deletion and overwriting, for which the write order gives
  no guarantee; listing; page buffers, assumed available by `EkeFs`, so that the return code -1
  for a missing one is not modelled (`Transfers` says when they run out); two drives sharing
  one bitmap buffer.
- Block devices: ATA port input and output; a sector write is one atomic step.
- EkeFs.FileSystem.FindFile: searches 64 entries that belong to the table; in the code the
  last four lie in foreign memory. The theorems about volumes hold while the four bytes
  named above stay zero and no file gets a slot behind the 60th; that other owners of
  that page leave them alone is assumed, and `TablePage` says what happens otherwise.
- CreateIsCrashAtomic: states devices whose bitmap covers all blocks, files of less than
  2^31 bytes, names of at most 31 bytes and a slot among the 60 stored ones, which the
  superblock, the entry, the name field and the table sectors can hold.
- Vmm.MapPageRefines: assumes that the walk meets no large page and that page allocation
  succeeds; `MappingLimits` says what happens otherwise. The flags lie in bits 0 to 11, all
  four gigabytes of physical memory can be written, and the TLB is not modelled.
- Scheduler: interrupts are atomic steps; saved registers are opaque; process ids do not
  wrap around; a missing scheduler module.
- EditorBuffer.Editor.Handle: keys other than printable ASCII, tab, Enter, Backspace and the
  arrows, which the code ignores, and the save and exit keys, which do not edit.
- Editor: the screen, scrolling, the status line and the keyboard.
- The heap allocators, shell, module registration and the other swaps, which are routine.
