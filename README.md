# Statement lowering of the lab4 compiler back end

The back end of the lab4 compiler turns each function body into a flat list
of Jimple instructions. Class `StmtCodeGenerator` handles the statements. It
visits a statement tree depth first and appends instructions to the body's
instruction list (`units`). Blocks, expression statements, returns, `if`
(with or without `else`), `while` and `break` are lowered to:

- no-op labels,
- conditional jumps taken when a value is zero,
- unconditional jumps,
- returns.

The generator keeps a map (`breakTargets`) from each loop to its exit label.
A loop records its exit label in the map before its body is lowered, and a
`break` jumps to the label recorded for its enclosing loop.

The project has seven modules:

- `Ir`: the instruction list, the labels it places and the labels its jumps target.
- `Ast`: statements. A loop carries an identity, and a break carries the identity of its enclosing loop.
- `Lowering`: the lowering as a pure function. `Lower(s, bt, n)` takes the statement, the break-target map and the next fresh label. It returns the code appended, the map afterwards and the next fresh label.
- `Backend`: class `StmtCodeGenerator`. It has the fields `units`, `breakTargets` and `nextLabel`, and one method per visit. Each method is proved to append exactly `Lower`'s code and to leave the map and the label supply as `Lower` does.
- `Coverage`: every label the supply hands out during a lowering is placed, and every placed label is the target of some jump.
- `Relabel`: labels are identities, not positions. Lowering from a supply that starts `d` further on gives the same code with every label moved by `d`.
- `Scoping`, `Properties`: what the lowering guarantees, proved about `Lower`:
  - the labels placed are exactly those drawn, each placed exactly once, and none is dead;
  - every jump lands on exactly one placed label;
  - every label is fresh;
  - the layout of each statement kind;
  - the map only gains entries;
  - a break jumps to the exit of its own loop, shown by comparison with a lexically scoped reference lowering.

Two points about the code:

- **Break with no recorded target.** `visitBreakStmt` (lines 57-62) looks the loop up with `HashMap.get`; for a loop that has no entry this returns null and a goto to null is emitted without any error. The model makes the lookup a precondition instead, as explained under Left out.
- **Label allocation order in an `if` with `else`.** The first label drawn becomes the else label; the end label is drawn only after the then branch is lowered (lines 95-98), so the then branch's labels come before it. The model keeps this order.

## Model

| member | source | states |
|---|---|---|
| Ast.ExprCode | lab4/Lab4/src/backend/StmtCodeGenerator.java:46 | expression code places no label and targets none, so it cannot clash with the statement's labels |
| Lowering.Lower | lab4/Lab4/src/backend/StmtCodeGenerator.java:45-151 | lowering only draws labels from the supply forward and never drops a break-target entry |
| Lowering.LowerIf | lab4/Lab4/src/backend/StmtCodeGenerator.java:91-105 | an if draws labels forward and keeps every break-target entry |
| Lowering.LowerWhile | lab4/Lab4/src/backend/StmtCodeGenerator.java:109-151 | a loop draws labels forward and keeps every break-target entry |
| Lowering.LowerBlock | lab4/Lab4/src/backend/StmtCodeGenerator.java:71-75 | a block draws labels forward and keeps every break-target entry |
| Lowering.LowerSound | lab4/Lab4/src/backend/StmtCodeGenerator.java:58-63 | whole-pass invariant: labels placed once and fresh; jumps and map entries land on placed or given labels; the map gains exactly the statement's loops |
| Lowering.LowerFresh | lab4/Lab4/src/backend/StmtCodeGenerator.java:93-98 | every label a statement places is drawn from the supply during its lowering, and each is placed once |
| Lowering.LowerKeeps | lab4/Lab4/src/backend/StmtCodeGenerator.java:130 | the break-target map gains exactly the statement's loops; other entries are unchanged |
| Lowering.LowerBlockKeeps | lab4/Lab4/src/backend/StmtCodeGenerator.java:71-75 | a block's lowering gains exactly the map entries of its loops |
| Lowering.LowerBlockSound | lab4/Lab4/src/backend/StmtCodeGenerator.java:71-75 | the whole-pass invariant carries over a block from its statements, each lowered from the state the previous one left |
| Lowering.IfThenSound | lab4/Lab4/src/backend/StmtCodeGenerator.java:92-103 | the whole-pass invariant carries over an if without else |
| Lowering.IfThenStep | lab4/Lab4/src/backend/StmtCodeGenerator.java:92-103 | the invariant of the then branch, drawn from n + 1, gives the invariant of the whole if drawn from n |
| Lowering.IfThenLayout | lab4/Lab4/src/backend/StmtCodeGenerator.java:94-103 | the if-then layout places the branch's labels plus join, targets join plus the branch's targets, and places each label once |
| Lowering.IfElseSound | lab4/Lab4/src/backend/StmtCodeGenerator.java:91-105 | the whole-pass invariant carries over an if with else |
| Lowering.IfElseFrom | lab4/Lab4/src/backend/StmtCodeGenerator.java:96-103 | the invariants of both branches, the else one taken after the then branch, give the invariant of the if-else |
| Lowering.IfElseLayout | lab4/Lab4/src/backend/StmtCodeGenerator.java:94-103 | the if-else layout places both branches' labels plus els and end, targets els, end and the branches' targets, and places each label once |
| Lowering.IfElseStep | lab4/Lab4/src/backend/StmtCodeGenerator.java:96-103 | the invariants of both branches give the invariant of the if-else layout |
| Lowering.WhileSound | lab4/Lab4/src/backend/StmtCodeGenerator.java:125-144 | the whole-pass invariant carries over a loop whose body sees its exit label as a break target |
| Lowering.WhileLayout | lab4/Lab4/src/backend/StmtCodeGenerator.java:132-144 | the loop layout places the body's labels plus label0 and label1, targets both plus the body's targets, and places each label once |
| Lowering.WhileStep | lab4/Lab4/src/backend/StmtCodeGenerator.java:125-144 | the body's invariant, with the exit label given, gives the loop's invariant |
| Scoping.Scoped | lab4/Lab4/src/backend/StmtCodeGenerator.java:58-63 | reference lowering with lexically scoped break targets draws labels forward |
| Scoping.LowerAgreesWithScoped | lab4/Lab4/src/backend/StmtCodeGenerator.java:58-130 | with distinct loop identities, the generator's single map sends every break where lexical scoping does: to the exit of its own enclosing loop, also when loops nest |
| Scoping.IfAgreesWithScoped | lab4/Lab4/src/backend/StmtCodeGenerator.java:91-105 | the agreement carries over an if |
| Scoping.ElseAgreesWithScoped | lab4/Lab4/src/backend/StmtCodeGenerator.java:96-102 | the agreement carries over an else branch lowered after the then branch's loops were entered in the map |
| Scoping.WhileAgreesWithScoped | lab4/Lab4/src/backend/StmtCodeGenerator.java:130-142 | the agreement carries over a loop: its entry in the map is the one the scope gives its body |
| Scoping.BlockAgreesWithScoped | lab4/Lab4/src/backend/StmtCodeGenerator.java:71-75 | the agreement carries over a block |
| Properties.FunctionBodyWellFormed | lab4/Lab4/src/backend/StmtCodeGenerator.java:45-151 | a function body lowered from an empty map places each label once, has no dangling jump, and every jump resolves to exactly one position; the labels placed are exactly the labels drawn, every placed label is jumped to, and the map ends with exactly the body's loops |
| Properties.WholeBody | lab4/Lab4/src/backend/StmtCodeGenerator.java:38-41 | appending a body's lowering to a well-formed instruction list keeps every label placed once and every jump resolved, and places every label drawn |
| Properties.IfElseLayoutAt | lab4/Lab4/src/backend/StmtCodeGenerator.java:92-103 | an if with else lowers to condition, IfZero to els, then branch, Goto end, els, else branch, end; els is the first label drawn, end is where the then branch left the supply, each is placed at one position only, and the statement draws beyond end |
| Coverage.LowerDense | lab4/Lab4/src/backend/StmtCodeGenerator.java:45-151 | every label drawn while a statement is lowered is placed in its code, and every label placed is the target of one of its jumps |
| Coverage.IfThenDense | lab4/Lab4/src/backend/StmtCodeGenerator.java:92-103 | the join label of an if without else is placed and jumped to by the test |
| Coverage.IfElseDense | lab4/Lab4/src/backend/StmtCodeGenerator.java:92-103 | els and end of an if with else are both placed; the test jumps to els and the then branch's goto to end |
| Coverage.WhileDense | lab4/Lab4/src/backend/StmtCodeGenerator.java:125-144 | label0 and label1 of a loop are placed; the back jump targets label0 and the test label1 |
| Coverage.LowerBlockDense | lab4/Lab4/src/backend/StmtCodeGenerator.java:71-75 | a block places every label its statements draw, and each is jumped to |
| Relabel.LowerShift | lab4/Lab4/src/backend/StmtCodeGenerator.java:45-151 | lowering from a supply and break targets moved by `d` yields the same code, map and supply with every label moved by `d` |
| Relabel.IfThenOutShift | lab4/Lab4/src/backend/StmtCodeGenerator.java:92-103 | moving every label of an if-then layout by `d` gives the layout of the moved branch around the moved join label |
| Relabel.IfElseOutShift | lab4/Lab4/src/backend/StmtCodeGenerator.java:92-103 | moving every label of an if-else layout by `d` gives the layout of the moved branches around the moved els and end labels |
| Relabel.LoopOutShift | lab4/Lab4/src/backend/StmtCodeGenerator.java:125-144 | moving every label of a loop layout by `d` gives the layout of the moved body around the moved label0 and label1 |
| Relabel.FunctionBodyRelabel | lab4/Lab4/src/backend/StmtCodeGenerator.java:93-98 | a function body lowered with its labels drawn from `n + d` is the one lowered from `n` with each label moved by `d`, so the numbering chosen for labels does not change the code's shape |
| Properties.WhileLayoutAt | lab4/Lab4/src/backend/StmtCodeGenerator.java:125-144 | a loop lowers to the pre-test layout: label0 first and only there, the condition, IfZero to label1, the body, Goto label0, label1 last and only there; both labels are fresh |
| Properties.LoopPositions | lab4/Lab4/src/backend/StmtCodeGenerator.java:132-144 | positions of every part of the loop layout, each label placed at one position only |
| Properties.WhileExitTarget | lab4/Lab4/src/backend/StmtCodeGenerator.java:126-130 | after a loop, its break target is its exit label label0 + 1 |
| Properties.IfThenLayoutAt | lab4/Lab4/src/backend/StmtCodeGenerator.java:92-103 | an if without else lowers to its layout, with join fresh, last, and placed only there |
| Properties.IfThenPositions | lab4/Lab4/src/backend/StmtCodeGenerator.java:94-103 | positions of every part of the if-then layout |
| Properties.IfElseLayoutOf | lab4/Lab4/src/backend/StmtCodeGenerator.java:96-103 | in the if-else layout with fresh branches, els and end are distinct, each placed at one position only, and end is drawn after all then-branch labels |
| Properties.IfElsePositions | lab4/Lab4/src/backend/StmtCodeGenerator.java:94-103 | positions of every part of the if-else layout |
| Properties.FreeBreaksConcat | lab4/Lab4/src/backend/StmtCodeGenerator.java:72-73 | the loops a block's breaks leave are those of its two halves |
| Properties.BlockConcat | lab4/Lab4/src/backend/StmtCodeGenerator.java:71-75 | a block emits nothing of its own: the code of `a + b` is the code of `a` followed by that of `b`, lowered from the state `a` left; so an empty block appends nothing and nested blocks flatten |
| Properties.LowerExtends | lab4/Lab4/src/backend/StmtCodeGenerator.java:130 | lowering only adds break targets: existing entries survive unchanged and the new keys are the statement's loops |
| Properties.WhileBreakExample | lab4/Lab4/src/backend/StmtCodeGenerator.java:125-144 | `while (x) { break; }` lowers to label 0, IfZero x to 1, Goto 1, Goto 0, label 1 |
| Properties.IfReturnExample | lab4/Lab4/src/backend/StmtCodeGenerator.java:79-105 | `if (x) { return; } else { return 1; }` lowers to IfZero x to n, ReturnVoid, Goto n + 1, label n, Return 1, label n + 1 |
| Properties.WhileIfBreakExample | lab4/Lab4/src/backend/StmtCodeGenerator.java:52-144 | in `while (x) { if (y) { break; } }` the break jumps to the loop's exit label, not to the if's join label |
| Backend.StmtCodeGenerator.constructor | lab4/Lab4/src/backend/StmtCodeGenerator.java:36-41 | the generator appends to the body's list, starts with no break target, and draws labels above all labels already there |
| Backend.GenerateFunctionBody | lab4/Lab4/src/backend/StmtCodeGenerator.java:38-41 | a generator made over a well-formed body and run over a statement keeps the body as a prefix and leaves a list whose labels are each placed once, whose jumps all resolve, and in which every label it drew is placed |
| Backend.StmtCodeGenerator.NewNop | lab4/Lab4/src/backend/StmtCodeGenerator.java:93 | a fresh label is drawn; nothing is appended |
| Backend.StmtCodeGenerator.GenerateExpr | lab4/Lab4/src/backend/StmtCodeGenerator.java:46 | expression lowering appends the expression's code and yields its operand |
| Backend.StmtCodeGenerator.Accept | lab4/Lab4/src/backend/StmtCodeGenerator.java:73 | visiting any statement appends exactly its lowering and leaves the map and label supply as the lowering does |
| Backend.StmtCodeGenerator.VisitExprStmt | lab4/Lab4/src/backend/StmtCodeGenerator.java:45-47 | appends only the expression's code; map and supply unchanged |
| Backend.StmtCodeGenerator.VisitBreakStmt | lab4/Lab4/src/backend/StmtCodeGenerator.java:52-66 | appends exactly one Goto to the label recorded for the break's loop; map and supply unchanged |
| Backend.StmtCodeGenerator.VisitBlock | lab4/Lab4/src/backend/StmtCodeGenerator.java:71-75 | the loop over the statements in source order appends the block's lowering |
| Backend.StmtCodeGenerator.VisitReturnStmt | lab4/Lab4/src/backend/StmtCodeGenerator.java:79-87 | appends the expression's code then Return of its operand, or ReturnVoid alone; map and supply unchanged |
| Backend.StmtCodeGenerator.VisitIfStmt | lab4/Lab4/src/backend/StmtCodeGenerator.java:91-105 | the visit, with its reassigned join label, appends exactly the if's lowering |
| Backend.StmtCodeGenerator.VisitWhileStmt | lab4/Lab4/src/backend/StmtCodeGenerator.java:109-151 | the visit, which records label1 before the body, appends exactly the loop's lowering and leaves the map the lowering leaves |

## Left out

- Soot and Jimple objects are not modelled: `Jimple.v()`, `newIfStmt`, `newEqExpr`, `IntConstant` and `Chain<Unit>`. Instructions form a datatype, the chain is a sequence, and the test `cond == 0` is folded into the `IfZero` instruction.
- Label objects from `newNopStmt` are not modelled. Labels are numbers drawn from a counter, so two labels are the same exactly when the same draw produced them.
- `ExprCodeGenerator` and `FunctionCodeGenerator` are not part of this model. Expression lowering is abstract: an expression carries the opaque instructions it appends and the operand it yields. Expression code that places labels or jumps of its own (short-circuit operators, for instance) is not modelled.
- Loop objects used as `HashMap` keys become loop identities. `getEnclosingLoop` is replaced by the loop identity stored on the break. Properties that need distinct loops state it with `UniqueLoops`.
- A break whose loop has no recorded target is not modelled as a goto to null. `Backend.StmtCodeGenerator.VisitBreakStmt` and `Lowering.Lower` require the entry to exist.
- Running the produced code is not modelled. The structural layouts and jump targets are proved instead.
- Fields `j` and `fcg` are not modelled: they are handles to the Jimple factory and to the function generator.
