# A model of the tinyc compiler

tinyc compiles a subset of C99 to x86-64 assembly: a Pratt parser, semantic analysis, lowering to
three-address code, frame allocation, and instruction selection. This project models the hard parts
of that path in Dafny and proves what they are for.

The main results, in the order of the pipeline:

* **Parsing.** On cast-free expressions the parser accepts without errors exactly the texts that the
  expression grammar of C99 section 6.5 derives, production by production, and the tree is the one
  derived; the one difference is that the left side of an assignment may be any conditional
  expression (`CGrammar.dfy`, `Pratt.dfy`, `Parser.dfy`). The minimal-parentheses printer and the
  parser are inverse to each other. The whole parser, with declarations, statements and error
  recovery, terminates on every token stream and consumes all of it; on the text of every
  translation unit of the grammar of `Syntax.dfy` it reports nothing, each of its methods consuming
  exactly the text of its own part; and it accepts only text that is well-bracketed outside the
  operands it skips (`Recovery.dfy`, on `Spine.dfy`, `FirstTokens.dfy`, `Places.dfy`,
  `DeclPlaces.dfy`, `StmtPlaces.dfy`, `Turns.dfy`, `Names.dfy`, `Specifiers.dfy` and `Brackets.dfy`;
  `Sample.dfy` has an example). String literals survive the assembler's escapes and the lexer's
  (`Strings.dfy`).
* **Types.** Interned types are canonical (`Interning.dfy`); struct and union layout follows an
  independent statement of the packing rule (`Types.dfy`, `Layout.dfy`); sizes are multiples of
  small power-of-two alignments (`CompleteTypes.dfy`); member lookup agrees between the two phases
  (`Members.dfy`); ABI classification equals the classes that the psABI gives to the
  kinds of the scalars in an eightbyte, joined with those of its zero-width bit-fields (`Classify.dfy`).
* **Checking.** The checker reports exactly the jumps that lowering would silently drop
  (`Sema.dfy`).
* **Lowering.** The generator, as stateful code (`IrGenerator.dfy`) proved against functions
  (`IrGen.dfy`), preserves the meaning of signed-int programs with every statement form, including
  `switch`, `break`, `continue`, `goto` and fall-through, in both directions, and leaves the final
  values of the variables in memory (`Ast.dfy`, `Semantics.dfy`, `Ir.dfy`, `Simulation.dfy`,
  `LowerExpr.dfy`, `Switches.dfy`, `LowerStmt.dfy`, `Labels.dfy`, `Functions.dfy`, `Lowering.dfy`).
* **Objects.** The code for bit-field assignments and reads refines "the last write wins"
  (`BitTheory.dfy`, `BitFields.dfy`, `StraightLine.dfy`), and compound assignments keep the
  neighbours under an exact condition (`CompoundWrites.dfy`); the static image of an initializer and
  the stores emitted for an automatic object both give the bytes C prescribes, with the exact
  condition (`Initializers.dfy`, `InitCode.dfy`).
* **Code generation.** Frames are laid out without overlap (`RegAlloc.dfy`); the processor running
  the selected instructions simulates the IR machine in one flat memory (`X86.dfy`, `Codegen.dfy`,
  `Frame.dfy`); composed with lowering, the processor returns exactly when the source finishes, with
  its value, and hands the caller's registers and memory back (`EndToEnd.dfy`). The three passes of
  a call and the callee's capture of its parameters, each with counters of its own, agree on where
  every eightbyte goes (`CallConv.dfy`).

`Bits.dfy` holds machine arithmetic. `dafny verify dfyconfig.toml` checks the whole project.

Conventions: signed values live in 64-bit slots as the sign-extended C value; the source language is
given by a big-step evaluator with fuel, whose outcomes are finishing, running on, and going wrong
(undefined behaviour); "Seek" is the evaluator's way of entering a statement at a label. Methods with
loops and mutable state stand for the code; functions specify them; lemmas say what they mean.

Where the code departs from what one would expect, the project states by how much, as an
if-and-only-if:

* a region is aligned exactly when its size is a multiple of its alignment, because the allocator
  aligns the top of a region (`RegAlloc.RegionAligned`); sealing makes that so for complete types;
* the text of a 4-byte zero extension is empty, so it is right exactly for values already extended
  (`Frame.ZextFourExact`);
* `bit_mask(63)` is all ones, so a 63-bit field reads wrongly, and writes wrongly exactly at bit 0
  (`BitFields.ReadExact`, `BitFields.StoreExact`);
* a static object keeps a byte that C sets to 0 exactly where the last literal for the byte is
  overridden by a later item without one, and spells something else there
  (`Initializers.StaticExact`); automatic objects do not;
* a designator that names a member of an anonymous struct writes at the member's own offset, right
  exactly when the anonymous aggregates around it start at 0, in static objects
  (`Initializers.DesignatedFill`) and in automatic ones (`InitCode.DesignatedRuns`);
* control characters other than newline, return and tab do not survive the assembler text and the
  compiler's own lexer (`Strings.RoundTripExact`);
* the evaluator of `case` expressions heeds `-` and literals and nothing else. It is right, for a
  literal under signs and `~`, exactly when the `~` cancel out; for a literal under a `!`, exactly
  when the literal with its minuses is what C makes of the truth value, so not for `case !5:`, which
  is 0 and is folded to 5; for anything else, such as `1 + 1`, exactly when the value is 0
  (`Switches.EvalConstExact`);
* a bit-field lies in its storage unit exactly when it is not wider than its type
  (`CompleteTypes.InUnitExact`), and a wider one runs into its successor exactly when the excess is
  more than the padding between them (`CompleteTypes.TooWideExact`);
* `+=`, `-=`, `++` and `--` on a bit-field add to the whole storage unit and keep the neighbours
  exactly when nothing is added below the field and the sum fits it
  (`CompoundWrites.CompoundExact`);
* an eightbyte is misclassified exactly when a zero-width bit-field is classified in it and no
  INTEGER scalar starts in it (`Classify.MisclassifiedExact`);
* an expression that C derives is accepted, and an accepted one is C's exactly when the left side of
  each of its assignments is no infix expression and no conditional (`CGrammar.StandardExact`), so
  not `a + b = c`;
* an octal escape is read right exactly when it does not begin with 0 or is a single digit
  (`Strings.OctalEscape`), so `"\012"` is read as a NUL and two digits.

## Model

| member | source | states |
|---|---|---|
| `Semantics.ExecInt` | src/irgen.c:1095-1334 | in the source semantics every object stays an `int` and a function returns one |
| `IrGenerator.Generator.Emit` | src/ir.c:62-80 | appends one instruction to the output and changes nothing else |
| `IrGenerator.Generator.NewLabel` | src/ir.c:82-83 | hands out the next label number, never one already handed out |
| `IrGenerator.Generator.GenExpr` | src/irgen.c:713-1092 | the recursive generator appends exactly the specified code, temporaries and labels for every expression of the subset |
| `IrGenerator.Generator.GenStmt` | src/irgen.c:1095-1334 | the same for every statement, and the saved break, continue, switch and scope fields are restored |
| `IrGenerator.Generator.GenSwitch` | src/irgen.c:1244-1290 | case table, dispatch chain, default jump, body and end label, with the enclosing switch's tables put back |
| `IrGenerator.Generator.GenFunc` | src/irgen.c:1342-1437 | a new generator's output for a function body is the specified one |
| `Semantics.DivisionIs` | src/codegen.c:539-561 | `/` and `%` on `int` are the quotient and the remainder of C99 section 6.5.5, told by their properties: `a == q*b + r`, the remainder smaller than the divisor and of the sign of the dividend; they go wrong exactly by 0 and for the least `int` by -1 |
| `Bits.TruncDivides` | src/codegen.c:539-561 | the arithmetic that the model divides with has those properties |
| `Bits.TruncatedIs` | src/codegen.c:539-561 | and nothing else has them |
| `Ir.DivideValues` | src/codegen.c:539-561 | the IR division of 64-bit values has them, and traps exactly for the least value by -1 |
| `LowerExpr.BinAgrees` | src/codegen.c:506-613 | where C defines an operator on `int`, the 64-bit operation on sign-extended operands gives the sign-extended result; for `/` and `%` that is the truncated quotient and the remainder, by their properties |
| `LowerExpr.LowerExprOk` | src/irgen.c:713-958 | running the code of an expression yields its C value and its side effects, left to right and with short-circuit evaluation, and keeps all earlier temporaries |
| `Switches.CollectedTables` | src/irgen.c:189-234 | the table of a switch leads every node of its body to the label assigned to that node, however nested |
| `Switches.DispatchTarget` | src/irgen.c:1265-1283 | the dispatch reaches the matching case, else the default, else the end |
| `Switches.TableEntry` | src/irgen.c:189-234 | a table has an entry for a value exactly when a node has that value |
| `Switches.EvalConstIs` | src/irgen.c:175-187 | the evaluator's result in closed form: the literal under all unary operators with the parity of the minuses, or 0 |
| `Switches.EvalConstExact` | src/irgen.c:175-187 | the evaluator gives a case expression its value if and only if the stated condition on its literal and operators holds |
| `Switches.LiteralCaseValue` | src/irgen.c:175-187 | in particular it is right on signed literals |
| `Switches.EvalConstIgnoresOperators` | src/irgen.c:175-187 | in particular it is wrong on `1 + 1`, `~1` and `!5` |
| `LowerStmt.LowerStmtOk` | src/irgen.c:1095-1334 | forward simulation of every statement, entered at its start or at any label inside it |
| `LowerStmt.ForLoopOk` | src/irgen.c:1187-1218 | the repeated part of a `for`: test, body, `continue` to the increment, `break` to the end |
| `LowerStmt.WhileAgain` | src/irgen.c:1144-1164 | after a loop body: repeat, leave, or hand the outcome on |
| `LowerStmt.SwitchEnd` | src/irgen.c:1244-1290 | `break` leaves the switch, every other outcome passes through it |
| `Labels.CountStmt` | src/irgen.c:1095-1334 | a statement whose nodes are distinct emits each label of its tables once per node that carries it, and each label it hands out at most once |
| `Functions.CollectsLabels` | src/irgen.c:237-276 | the label table has exactly the labels of the body |
| `Functions.LabelsUnique` | src/irgen.c:1342-1437 | no label is defined twice in the code of any function whose label names and nodes are distinct |
| `Functions.JumpsLand` | src/irgen.c:1342-1437 | for the same functions, every label that a jump names is defined exactly once |
| `Functions.GotoEmitted` | src/irgen.c:1314-1334 | for the same functions, every entry of the label table has its definition in the code |
| `Lowering.BodyOk` | src/irgen.c:1095-1334 | the simulation for a whole body, with `goto` from anywhere to anywhere |
| `Lowering.FallsOff` | src/irgen.c:1342-1437 | control that reaches the end of the code returns without a value, leaving the memory as it is |
| `Lowering.LoweringPreserves` | src/irgen.c:713-1334 | for every valid function and every run, the code finishes with the source's result and the values of its variables, or runs on as long as the source does |
| `Lowering.LoweringAgrees` | src/irgen.c:713-1334 | for a source that never goes wrong, the code halts with a value if and only if the source finishes with it, and then its memory holds the source's variables |
| `Sema.LabelExists` | src/sema.c:444-480 | the search returns whether the label is in the body |
| `Sema.Checker.CheckStmt` | src/sema.c:482-585 | errors reported are exactly the misplaced jumps and the cases outside every switch; the depths are restored |
| `Sema.LabelsAgree` | src/irgen.c:237-276 | the checker's search and the generator's table know the same labels, repeated or not |
| `Sema.TransferEmits` | src/irgen.c:1236-1243 | a `break`, `continue` or `goto` becomes a jump if and only if the checker accepts it, and otherwise nothing |
| `Sema.StmtEmits` | src/irgen.c:1095-1334 | jumps emitted plus jumps rejected balance with the jumps the syntax calls for, for every statement in every context |
| `Sema.MissingJumps` | src/sema.c:566-579 | a function's code lacks one jump for each misplaced statement |
| `Sema.CheckFunc` | src/sema.c:482-585 | no error exactly when no case is stray and no jump is missing from the code |
| `Sema.AcceptedIsValid` | src/sema.c:482-585 | an accepted body with distinct labels and proper switches meets the hypotheses of the lowering theorem |
| `RegAlloc.RegallocRun` | src/regalloc.c:18-58 | the two loops fill both arrays and the frame size as specified |
| `RegAlloc.FrameLayout` | src/regalloc.c:26-57 | slots and regions lie in the frame and are pairwise disjoint; the frame size is a multiple of 16 |
| `RegAlloc.RegionAligned` | src/regalloc.c:36-49 | with a 16-aligned %rbp a region is aligned if and only if its size is a multiple of its alignment |
| `X86.CompareFlags` | src/codegen.c:576-613 | `cmp` and a signed condition compare, through SF, ZF and OF |
| `X86.IdivEffect` | src/codegen.c:539-561 | after `cqto`, `idivq` leaves in %rax and %rdx the only quotient and remainder with `a == q*b + r`, the remainder smaller than the divisor and of the sign of the dividend, and traps exactly for a zero divisor or a quotient that does not fit |
| `Codegen.Writer.EmitInstr` | src/codegen.c:331-697 | the selection switch writes the specified text for each instruction |
| `Codegen.Writer.CodegenFunc` | src/codegen.c:292-330 | allocates, then writes prologue, every instruction in order, and epilogue |
| `Frame.SlotHolds` | src/codegen.c:186-209 | a temporary's slot lies in the frame and holds its value |
| `Frame.DataWrite` | src/codegen.c:381-405 | a truncating store into a region changes the same bytes in the flat memory and in the regions, and no slot |
| `Frame.DivideOk` | src/codegen.c:539-561 | the text of a division or remainder of two slots leaves in the result slot a quotient or remainder with those properties |
| `Frame.ZextFourExact` | src/codegen.c:630-642 | the empty text of a 4-byte zero extension is right exactly for the values the condition allows |
| `Frame.StepOk` | src/codegen.c:331-697 | one IR step is simulated by the text of that instruction |
| `Frame.RunOk` | src/codegen.c:292-963 | every run of the IR machine that does not get stuck is simulated in one flat byte memory |
| `Frame.PrologueOk` | src/codegen.c:319-322 | the prologue sets up a frame that represents the initial IR state |
| `Frame.LeaveOk` | src/codegen.c:885-929 | `leave; ret` restores %rbp, %rsp and the return address |
| `EndToEnd.RegionsInFrame` | src/regalloc.c:36-49 | the frame is the memory lowering asked for: one disjoint region per declaration |
| `EndToEnd.LocalsAligned` | src/irgen.c:341-355 | every local of a generated function is aligned |
| `EndToEnd.CompilePreserves` | src/codegen.c:292-963 | from source to processor: the source's value in %rax, the caller's %rbp and %rsp, and no byte outside the frame changed |
| `EndToEnd.CompiledAgrees` | src/codegen.c:292-963 | for a source that never goes wrong the processor never faults, returns if and only if the source finishes, and with its value |
| `EndToEnd.CompileFunc` | src/irgen.c:1342-1437 | generator, allocator and writer chained produce the text of the theorem |
| `Types.Aggregate.Seal` | src/type.c:187-229 | the in-place loop leaves the fields, size and alignment that the sealing function gives |
| `Types.Aggregate.SealAsUnion` | src/type.c:232-245 | the same for unions |
| `Types.ScalarSizes` | src/type.c:248-306 | the sizes of all scalar kinds, listed size by size as in section 3.1.2 of the psABI; each is also the alignment |
| `Bits.AlignUpLeast` | src/regalloc.c:42-44 | for power-of-two alignments the mask rounds up to the least multiple |
| `Layout.StructLayout` | src/type.c:187-229 | bit ranges are disjoint, in order and inside; storage is aligned; the size is the least covering multiple; each field is at the place the packing rule gives |
| `CompleteTypes.UnionLayout` | src/type.c:232-245 | members start at 0, and the size is the least multiple of the alignment that covers the largest |
| `CompleteTypes.SizeIsAligned` | src/type.c:248-306 | the size of every complete type is a multiple of its alignment, a power of two of at most 16 |
| `CompleteTypes.SealedComplete` | src/type.c:187-245 | sealing complete fields gives a complete type, and sealing is idempotent |
| `CompleteTypes.LeafAtMultiple` | src/type.c:187-306 | inside a complete type every multiple of the alignment is where a scalar starts |
| `CompleteTypes.LeafInside` | src/type.c:187-306 | scalars lie inside their type |
| `CompleteTypes.ObjectsAligned` | src/irgen.c:341-355 | every object of a complete type is aligned in a frame with 16-aligned %rbp |
| `CompleteTypes.InUnitExact` | src/type.c:198-220 | for every list of fields, a placed bit-field lies in its own storage unit if and only if it is not wider than its type |
| `CompleteTypes.TooWideExact` | src/type.c:198-220 | a bit-field that is too wide overlaps its successor if and only if the excess is more than the padding that the successor's type calls for at the running offset |
| `CompleteTypes.TooWideOverlaps` | src/type.c:198-220 | in particular in `char a : 12; char b;` |
| `Classify.ClassifyRange` | src/abi_classify.c:17-123 | the recursive in-place classifier computes the specified classes |
| `Classify.RunAbiClassify` | src/abi_classify.c:125-149 | the whole classification, with the MEMORY rules |
| `Classify.ClassifyExact` | src/abi_classify.c:5-156 | at most 16 bytes: an eightbyte is INTEGER if and only if a scalar of one of the listed integer, `_Bool`, enumeration or pointer kinds starts in it, else SSE, and then one of kind `float` or `double` does; MEMORY if and only if larger |
| `Classify.ClassifyAll` | src/abi_classify.c:17-149 | for every complete type without `long double`: an eightbyte is INTEGER if and only if a scalar of one of those kinds starts in it or a zero-width bit-field of one is in it; otherwise SSE if and only if a `float` or `double` does; otherwise NO_CLASS |
| `Classify.MisclassifiedExact` | src/abi_classify.c:17-149 | the class differs from that of the scalars if and only if a zero-width bit-field is classified there and no INTEGER scalar starts there |
| `Classify.ZeroWidthMisclassifies` | src/abi_classify.c:17-123 | in particular `struct { float a; int : 0; float b; }` goes to integer registers |
| `BitFields.LoadRuns` | src/irgen.c:291-307 | the emitted load computes the masked and shifted storage unit |
| `BitFields.StoreRuns` | src/irgen.c:309-339 | the emitted store replaces the storage unit with the combined one, and keeps all earlier temporaries |
| `BitFields.BitfieldStoreBit` | src/irgen.c:309-339 | on every bit: the field's bits come from the value, the neighbours keep theirs |
| `BitFields.StoreExact` | src/irgen.c:409-413 | stores keep their neighbours if and only if not (width 63 at bit 0) |
| `BitFields.ReadExact` | src/irgen.c:409-413 | reads return the field's bits if and only if the width is not 63 |
| `BitFields.LastWriteWins` | src/irgen.c:291-339 | after any sequence of writes to the fields of an object each field spells the last value written to it, modulo its width |
| `BitFields.AssignsRun` | src/irgen.c:894-908 | running the code for any sequence of assignments to the fields of an object applies the writes in turn |
| `BitFields.ReadsLastWrite` | src/irgen.c:291-339 | on the machine, for sealed structs and every width but 63: after the code for any assignments, the code for a read returns the last value assigned, modulo the width |
| `CompoundWrites.CompoundRuns` | src/irgen.c:910-931 | the code of a compound assignment adds to the whole storage unit |
| `CompoundWrites.CompoundExact` | src/irgen.c:910-931 | it keeps every other bit of the unit if and only if nothing is added below the field and the sum fits the field, and then the field holds that sum |
| `CompoundWrites.IncrementExact` | src/irgen.c:761-797 | `++` keeps the neighbours if and only if the field starts at bit 0 and is not at its maximum, or fills its unit |
| `CallConv.TypesAreArgs` | src/abi_classify.c:125-156 | every long-double-free scalar, struct and union is an argument the passes can place; by memory exactly above 16 bytes |
| `CallConv.ComputeArgState` | src/codegen.c:31-69 | the callee's loop computes the register and stack state before a parameter |
| `CallConv.CountStackBytes` | src/codegen.c:707-738 | pass 1 counts the bytes of the stack arguments |
| `CallConv.GoesToStack` | src/codegen.c:745-775 | pass 2's repeated simulation decides as the shared state does |
| `CallConv.PushArgs` | src/codegen.c:740-790 | pass 2 pushes exactly the counted bytes, each eightbyte at its place |
| `CallConv.LoadArgs` | src/codegen.c:792-834 | pass 3, counting for itself, loads each argument that fits into the registers the callee reads, and overwrites none |
| `CallConv.CaptureParam` | src/codegen.c:418-481 | the callee's capture of one parameter, with its own fit test, takes every eightbyte from the place the shared state gives |
| `CallConv.PlacesDistinct` | src/codegen.c:418-481 | the places that the capture reads are all different: no two eightbytes share a register or a stack slot |
| `CallConv.RegistersFirst` | src/codegen.c:418-481 | of single-eightbyte arguments of one class, the first six INTEGER ones and the first eight SSE ones are in registers in order, the others on the stack from 16(%rbp) on |
| `CallConv.Call` | src/codegen.c:699-846 | what the callee captures for each parameter are the eightbytes of that argument, in order; %rsp is 16-aligned at the call and restored after it |
| `CallConv.CopyBytes` | src/codegen.c:133-154 | the block copy moves exactly the bytes of the object |
| `Members.LookupMember` | src/sema.c:57-71 | finds the first member of that name in declaration order, through anonymous aggregates, or none exists |
| `Members.FindFieldWithOffset` | src/irgen.c:373-392 | the same member, with the sum of the offsets on the way |
| `Members.SearchesAgree` | src/sema.c:57-71 | both searches find the same member, or both none |
| `Members.FindsTheMember` | src/irgen.c:373-392 | a name reachable in one way only is found exactly there |
| `Members.MemberInside` | src/irgen.c:373-392 | a member's bytes lie inside the outermost object, aligned |
| `Members.OwnOffsetExact` | src/irgen.c:368-371 | a field's own offset is the member's place if and only if the aggregates around it start at 0 |
| `Members.OwnOffsetDiffers` | src/irgen.c:368-371 | a struct, as sealing lays it out, in which it is not |
| `Initializers.WriteIntLe` | src/irgen.c:433-437 | the loop writes the little-endian bytes and nothing else |
| `Initializers.FillGlobalArray` | src/irgen.c:456-484 | the in-place loop, with skipped and out-of-range items, gives the specified buffer |
| `Initializers.FillGlobalAggregate` | src/irgen.c:486-509 | the same for structs and unions |
| `Initializers.FindIsFirst` | src/irgen.c:368-392 | the designator's search returns the first field of that name, through anonymous aggregates, and the fields after it |
| `Initializers.FillInside` | src/irgen.c:439-523 | no initializer whatsoever writes outside the object, wherever its designators lead |
| `Initializers.DesignatedFill` | src/irgen.c:486-509 | a designated member is written at its field's own offset, which is its place if and only if the anonymous aggregates around it start at 0 |
| `Initializers.AnonymousMisplaced` | src/irgen.c:486-509 | `{ .a = 1, 2 }` for `struct { int x; struct { int a, b; }; }` writes over `x` and `a` |
| `Initializers.FillIs` | src/irgen.c:439-523 | for a proper initializer, each byte of the buffer is from the last item that writes it, or untouched |
| `Initializers.RefIs` | src/irgen.c:439-523 | C gives a byte its last literal, or 0 when there is none or a later item overrides it |
| `Initializers.SubobjectRef` | src/irgen.c:456-509 | for any initializer, the bytes of element `i`, at `i` times the size of an element, and of a member, at its offset, are those prescribed by the last item for it alone |
| `Initializers.DesignatedElement` | src/irgen.c:456-484 | `{ [i] = x }` gives element `i` the bytes of `x` |
| `Initializers.UndesignatedElement` | src/irgen.c:456-484 | `{ x0, x1, ... }` gives element `i` the bytes of the i-th |
| `Initializers.SubobjectFill` | src/irgen.c:456-509 | the static image holds at that place the image of the subobject alone, when no other item is for it |
| `Initializers.ScalarElement` | src/irgen.c:456-484 | in particular a scalar element `i` holds the little-endian bytes of its value at `i` times its size |
| `Initializers.StaticExact` | src/irgen.c:439-523 | the image has the byte C prescribes if and only if the byte's last literal is not overridden or spells 0 there |
| `Initializers.OnceNotStale` | src/irgen.c:439-523 | nothing is stale when no subobject is initialized twice |
| `Initializers.StaticImage` | src/irgen.c:1473-1490 | the zeroed and filled buffer of a static object is right exactly at the bytes that are not stale |
| `Initializers.TwiceIsStale` | src/irgen.c:486-509 | `{ .s = {1, 2}, .s = {3} }` keeps the 2 in a static object, and C wants 0 |
| `InitCode.GenInitializer` | src/irgen.c:607-641 | the generator's recursive methods emit the specified code |
| `InitCode.GenZeroInitializer` | src/irgen.c:538-556 | the zeroing loops emit the specified stores |
| `InitCode.ZeroRuns` | src/irgen.c:538-556 | running the zeroing code zeroes every scalar and changes nothing else |
| `InitCode.InitRuns` | src/irgen.c:525-641 | running the emitted code leaves in every scalar the bytes C prescribes, with any number of overrides, and changes no other byte |
| `InitCode.SubobjectRuns` | src/irgen.c:558-641 | the emitted stores leave element `i`, at `i` times the size of an element, and a member, at its offset, as its last item alone would; a scalar holds the bytes of its value |
| `InitCode.DesignatedRuns` | src/irgen.c:582-641 | the stores for a designated member go to its field's own offset in the zeroed object, its place if and only if the anonymous aggregates around it start at 0 |
| `InitCode.ImageAgrees` | src/irgen.c:433-641 | static image and automatic object agree on every scalar byte if and only if it is not stale |
| `Interning.TypeTable.TypePointer` | src/type.c:59-73 | returns the node built earlier for these arguments, or a new one at the head of its bucket |
| `Interning.TypeTable.TypeArray` | src/type.c:75-89 | the same for arrays |
| `Interning.TypeTable.TypeArrayUnsized` | src/type.c:91-105 | the same for arrays without a size |
| `Interning.TypeTable.TypeFunc` | src/type.c:107-140 | the same for functions, comparing parameter lists to their ends |
| `Interning.Canonical` | src/type.c:52-140 | over any run of calls two results are the same node if and only if constructor and arguments are equal |
| `Interning.NoDuplicates` | src/type.c:52-140 | no type stands in the table twice |
| `Pratt.ParseSound` | src/parser.c:1129-1379 | an error-free parse returns a tree that respects the binding powers and whose text is the tokens consumed |
| `Pratt.ParseComplete` | src/parser.c:1129-1379 | every correct tree is what its own tokens parse to |
| `Pratt.ParseUnique` | src/parser.c:1083-1140 | the tokens determine the tree |
| `Pratt.ParseExact` | src/parser.c:1083-1379 | an input parses without errors if and only if it is the text of a correct tree |
| `CGrammar.DerivesIs` | src/parser.c:1083-1124 | for every tree and every level from comma to primary, the production of that level derives the tree if and only if it respects the binding powers and is as tight as the level |
| `CGrammar.ParseDerives` | src/parser.c:1083-1379 | an input parses without errors to a tree if and only if C's expression grammar, with conditional expressions on the left of assignments, derives that tree and the input is its text |
| `CGrammar.StandardExact` | src/parser.c:1083-1379 | C's own grammar derives it if and only if, besides, no assignment has an infix expression or a conditional on its left |
| `CGrammar.LaxAssignment` | src/parser.c:1083-1379 | in particular `a + b = c` is accepted, and C derives no tree for it |
| `CGrammar.ParseLevel` | src/parser.c:1129-1140 | a parse at any binding power returns a tree derived by the level just above that power |
| `Pratt.PrintParses` | src/parser.c:1083-1379 | printing any tree and parsing the text gives the tree back |
| `Pratt.PrintMinimal` | src/parser.c:1083-1379 | no shorter text parses to the same tree |
| `Parser.Parser.ParseExpr` | src/parser.c:1129-1140 | the loop over the token stream returns the specified tree, position and error count, on every stream |
| `Parser.ParseInput` | src/parser.c:1129-1379 | the loop on a whole input succeeds if and only if the grammar derives the input, and returns the tree derived |
| `Parser.Parser.ParseNud` | src/parser.c:1143-1275 | the same for prefix positions |
| `Parser.Parser.ParseLed` | src/parser.c:1277-1379 | the same for infix and postfix positions |
| `Parser.Parser.ExpectToken` | src/parser.c:361-378 | a wrong token is reported and consumed, except at the end of the input |
| `Recovery.Parser.ParseExpr` | src/parser.c:1129-1140 | on the text of any expression of the grammar that binds more tightly than the power, before a token that does not continue it: consumes exactly that text without an error; on any stream stops, and reads well-bracketed text unless it reports an error |
| `Recovery.Parser.ParseNud` | src/parser.c:1143-1275 | the same for the first operand, with casts, compound literals, `sizeof` and `_Alignof` |
| `Recovery.Parser.ParseLed` | src/parser.c:1277-1379 | the same for what follows an operand |
| `Recovery.Parser.ParseTypeName` | src/parser.c:1014-1023 | the same for type names |
| `Recovery.Parser.ParseDeclSpec` | src/parser.c:724-857 | the same for specifiers, with one storage class and any combination of type keywords that C allows, in any order; the set of visible type names afterwards is that of the grammar |
| `Recovery.Parser.ParseStructUnion` | src/parser.c:520-613 | the same for a struct or union specifier, member by member |
| `Recovery.Parser.ParseEnum` | src/parser.c:653-715 | the same for an enum specifier; the enumerators are no type names afterwards |
| `Recovery.Parser.ParseDeclarator` | src/parser.c:920-1012 | the same for grouped, pointer, array and function declarators; it returns the name declared and, when that is a function's, the names of its parameters |
| `Recovery.Parser.ParseInitList` | src/parser.c:1025-1065 | the same for nested and designated initializers |
| `Recovery.Parser.ParseStatement` | src/parser.c:1397-1614 | for every statement of the grammar in the loops and switches around it, before a token that does not continue it: consumes exactly its text without an error and leaves the type names that C leaves; on any stream the loop depth, the switch depth and all but the innermost scope are as before |
| `Recovery.Parser.ParseIf` | src/parser.c:1417-1426 | the same for an `if`, which takes an `else` exactly when one follows |
| `Recovery.Parser.ParseFor` | src/parser.c:1455-1488 | the same for a `for`, with any of its parts absent or a declaration in the first |
| `Recovery.Parser.ParseJump` | src/parser.c:1499-1518 | a `break` is reported exactly outside of loops and switches, a `continue` exactly outside of loops |
| `Recovery.Parser.ParseCompound` | src/parser.c:1616-1640 | the same for a block, which leaves the scopes exactly as they were |
| `Recovery.Parser.ParseDeclList` | src/parser.c:1648-1754 | the same for declarator lists, which make their names types or hide them, and for function definitions |
| `Recovery.Parser.ParserParse` | src/parser.c:1760-1796 | on the text of any translation unit of the grammar no error is reported; on every token stream the parser stops with every token consumed and one scope left |
| `Recovery.ParseUnit` | src/parser.c:1760-1796 | 0 errors on the text of every translation unit that the grammar of `Syntax` derives; any stream that parses without errors is well-bracketed outside its skipped operands, and well-bracketed throughout if and only if those operands are |
| `Sample.UnitIsGood` | src/parser.c:1417-1426 | that grammar derives `void f(int x) { if (x) x = 1; else x = 2; }` |
| `Brackets.ScanRaw` | src/parser.c:503-516 | on every stream, the brackets of the whole are determined by those outside and inside the skipped operands |
| `Brackets.AttributeHidesBrackets` | src/parser.c:503-516 | in particular `int x __attribute__([);` reads as well-bracketed and is not |
| `Strings.Lexer.ScanStr` | src/lexer.c:284-299 | the scanner's loop over its buffer returns the specified bytes and position |
| `Strings.Lexer.ScanEsc` | src/lexer.c:258-281 | one escape: its value and how far it reads |
| `Strings.SimpleEscape` | src/lexer.c:258-264 | each of the single-character escapes has the value that C99 section 5.2.2 gives it |
| `Strings.HexEscape` | src/lexer.c:265-271 | a hexadecimal escape takes all the digits there are, in either case, and has their value |
| `Strings.OctalEscape` | src/lexer.c:263-277 | an octal escape of one to three digits has their value if and only if it does not begin with 0 or is a single digit |
| `Strings.EmitAsciz` | src/codegen.c:966-983 | the emitter's loop writes the specified text |
| `Strings.RoundTrip` | src/codegen.c:966-983 | scanning the emitted text gives the bytes back and stops after the closing quote |
| `Strings.RoundTripExact` | src/lexer.c:258-299 | the round trip holds for exactly the strings that fit the buffer and whose control characters are newline, return and tab |

## Left out

- Floating point, `long double` and X87 classes: float and double occur as class tags of arguments and as sizes only.
- Unsigned arithmetic, `char` and `short` arithmetic, casts, pointers, subscripts, members and calls in the source language of the lowering theorem: its objects are local `int` variables.
- Parameters of the function compiled end to end: it takes none. Argument passing is modelled by itself in `CallConv.dfy`, with one token for the contents of each eightbyte.
- A program that jumps past a declaration and then uses the object goes wrong in the source semantics; C allows it.
- Compound assignment reads its left side before evaluating its right side, as the code does; C leaves the order open, so programs that depend on it are given the compiler's order.
- Switches with a case value that the compiler's constant evaluator folds wrongly are outside the lowering theorem (`SwitchOk`); which ones these are is `Switches.EvalConstExact`.
- IrGenerator.Generator.GenFunc: parameters and the hidden return pointer are not generated.
- Scopes are an ordered chain of bindings; their hash buckets are not modelled.
- The IR machine keeps each object in a region of its own; assembler labels take a step of the processor; the instruction encoding, sections, symbol prefixes and the text format of the assembler are not modelled.
- Codegen.Writer.EmitInstr: covers integer instructions; calls, floating point, memory copies and global addresses are not selected.
- RegAlloc.RegallocRun: C `int` overflow of the frame size is excluded by the bound on its inputs.
- Layout.StructLayout: offsets and sizes stay below 2 GB, where the source's `int` arithmetic does not overflow.
- Classify.ClassifyExact: excludes empty aggregates and `long double`; zero-width bit-fields are in `Classify.ClassifyAll`.
- BitFields.ReadsLastWrite: the assignments are plain ones, of constants or temporaries computed before; `+=`, `-=`, `++` and `--`, which may clobber neighbours, are in `CompoundWrites.dfy`, and the other compound operators are not modelled on bit-fields; reads are unsigned; the sign of signed bit-fields is not extended, in the code as in the model.
- CallConv.LoadArgs: the bytes of a tail eightbyte of 3, 5, 6 or 7 bytes, which the code moves with one wider or narrower instruction, are not modelled; an eightbyte is one token.
- Return values of struct type and variadic calls are not modelled.
- Incomplete types, flexible array members, variable-length arrays and multi-dimensional subscripts are not modelled.
- Initializers.StaticExact: objects without bit-fields, floating members and `_Bool`, and initializers with braces around every aggregate and integer literals in them; what C means by a designator is stated for direct members, and for members of anonymous aggregates by `Initializers.DesignatedFill` one at a time.
- Initializers.StaticImage: a static scalar initialized without braces takes a path of its own (src/irgen.c:1475-1477), which is not modelled.
- InitCode.GenInitializer: an aggregate copied from another aggregate is excluded by `NoCopies`.
- InitCode.InitRuns: aggregates initialized by copying another aggregate are excluded by `NoCopies`.
- Interning.TypeTable.TypePointer: qualified copies of a type, and the patching of nodes under grouped declarators, are not modelled; the address of a new node comes from the arena.
- Parser.Parser.ParseExpr: casts, `sizeof`, `_Alignof` and compound literals are in `Recovery.dfy` only.
- Recovery.Parser.ParserParse: the syntax tree, tag scopes and diagnostics text are left out; types are kept as far as later choices depend on them.
- Recovery.ParseUnit: of what is accepted beyond the grammar of `Syntax` only the brackets are known; the parser accepts other texts on purpose, with attributes, `asm`, `typeof`, pragmas and loose declarations.
- Syntax.GoodUnit: differs from C99 sections 6.5 to 6.9 as the next lines say. The parser does not accept, so the grammar does not have: an assignment as an initializer (`int x = a = 3;`); `sizeof` of a compound literal; a parameter list without a declarator before it (`int (int)` as a type name); array bounds with `static` or `*`; designators of more than one step; parameter lists of names only, with declarations after them; more than 16 stars; `_Imaginary`.
- Syntax.GoodUnit: a visible type name cannot be used as a label, nor redeclared after specifiers that another type keyword could follow (`int T;` inside a block, but `void T(void);` is in the grammar), since the parser takes it for a type; enumerators that hide a type name stand in declarations only, not in parameters, type names or the head of a `for`.
- Syntax.GoodUnit: is looser than C99 where the parser is: any conditional expression on the left of an assignment, any expression after `case`, `case` outside of a `switch`, and labels at the end of a block; it has no constraints on types. The GNU forms (attributes, `asm`, `typeof`, `__extension__`, pragmas, `va_list`) are in the parser and not in the grammar.
- Sema.Checker.CheckStmt: errors inside expressions and declarations are not counted.
- Strings.Lexer.ScanEsc: the value of a hexadecimal escape is unbounded here; the overflow of the C `int` that collects it is not modelled.
- The arena and the string table are assumed: fresh memory, and equal names exactly for equal text.
- The preprocessor, the driver, file access, printers of trees and types, and the remaining lexer are not modelled.
