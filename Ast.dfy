/** The statements the lowering reads. They are built upstream and never
    changed here. A loop carries an identity, and a break carries the
    identity of the loop it leaves (its enclosing loop, resolved before
    lowering starts). */
module Ast {
  import opened Ir

  type LoopId = nat

  /** A source expression, seen only through what expression lowering does
      with it: the instructions it appends (`ops`, each lowered to an opaque
      instruction) and the operand it yields. */
  datatype Expr = Expr(ops: seq<nat>, value: Value)

  datatype Stmt =
    | Block(stmts: seq<Stmt>)
    | ExprStmt(expr: Expr)
    | ReturnStmt(result: Option<Expr>)
    | IfStmt(cond: Expr, thn: Stmt, els: Option<Stmt>)
    | WhileStmt(id: LoopId, cond: Expr, body: Stmt)
    | BreakStmt(loop: LoopId)

  datatype Option<T> = None | Some(value: T)

  /** What expression lowering appends for `e`: opaque instructions only,
      never a label or a jump. */
  function ExprCode(e: Expr): (code: seq<Instr>)
    ensures |code| == |e.ops|
    ensures forall i :: 0 <= i < |code| ==> code[i] == Opaque(e.ops[i])
    ensures Placed(code) == {} && Targets(code) == {}
  {
    seq(|e.ops|, i requires 0 <= i < |e.ops| => Opaque(e.ops[i]))
  }

  /** The loops a break in `s` leaves that `s` does not itself enclose it in. */
  function FreeBreaks(s: Stmt): set<LoopId> {
    match s
    case Block(ss) => FreeBreaksSeq(ss)
    case ExprStmt(_) => {}
    case ReturnStmt(_) => {}
    case IfStmt(_, t, e) => FreeBreaks(t) + (if e.Some? then FreeBreaks(e.value) else {})
    case WhileStmt(id, _, b) => FreeBreaks(b) - {id}
    case BreakStmt(l) => {l}
  }

  function FreeBreaksSeq(ss: seq<Stmt>): set<LoopId> {
    if ss == [] then {} else FreeBreaksSeq(ss[..|ss| - 1]) + FreeBreaks(ss[|ss| - 1])
  }

  /** The identities of the loops in `s`. */
  function LoopIds(s: Stmt): set<LoopId> {
    match s
    case Block(ss) => LoopIdsSeq(ss)
    case ExprStmt(_) => {}
    case ReturnStmt(_) => {}
    case IfStmt(_, t, e) => LoopIds(t) + (if e.Some? then LoopIds(e.value) else {})
    case WhileStmt(id, _, b) => {id} + LoopIds(b)
    case BreakStmt(_) => {}
  }

  function LoopIdsSeq(ss: seq<Stmt>): set<LoopId> {
    if ss == [] then {} else LoopIdsSeq(ss[..|ss| - 1]) + LoopIds(ss[|ss| - 1])
  }

  /** No two loops in `s` share an identity, as no two loop nodes of a tree
      are the same object. */
  predicate UniqueLoops(s: Stmt) {
    match s
    case Block(ss) => UniqueLoopsSeq(ss)
    case ExprStmt(_) => true
    case ReturnStmt(_) => true
    case IfStmt(_, t, e) =>
      UniqueLoops(t) && (e.Some? ==> UniqueLoops(e.value) && LoopIds(t) !! LoopIds(e.value))
    case WhileStmt(id, _, b) => UniqueLoops(b) && id !in LoopIds(b)
    case BreakStmt(_) => true
  }

  predicate UniqueLoopsSeq(ss: seq<Stmt>) {
    ss == [] ||
    (UniqueLoopsSeq(ss[..|ss| - 1]) && UniqueLoops(ss[|ss| - 1]) &&
     LoopIdsSeq(ss[..|ss| - 1]) !! LoopIds(ss[|ss| - 1]))
  }
}
