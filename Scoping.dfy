/** A reference reading of break resolution: each loop's exit label is in
    scope exactly over that loop's body, so a break jumps to the exit of the
    loop that encloses it and to nothing else. The generator instead keeps
    one break-target map for the whole function body and never removes an
    entry; lemma LowerAgreesWithScoped shows the two give the same code when
    no two loops share an identity. */
module Scoping {
  import opened Ir
  import opened Ast
  import opened Lowering

  datatype Emitted = Emitted(code: seq<Instr>, next: nat)

  /** Lowering in which the exit labels of the enclosing loops (`env`) are
      passed down, not threaded through: a loop's entry is visible in its
      body only. */
  function Scoped(s: Stmt, env: map<LoopId, LabelId>, n: nat): (r: Emitted)
    requires FreeBreaks(s) <= env.Keys
    ensures n <= r.next
  {
    match s
    case Block(ss) => ScopedBlock(ss, env, n)
    case ExprStmt(e) => Emitted(ExprCode(e), n)
    case ReturnStmt(r) =>
      if r.Some? then Emitted(ExprCode(r.value) + [Return(r.value.value)], n)
      else Emitted([ReturnVoid], n)
    case IfStmt(c, t, e) =>
      var rt := Scoped(t, env, n + 1);
      if e.None? then
        Emitted(IfThenCode(c, rt.code, n), rt.next)
      else
        var end := rt.next;
        var re := Scoped(e.value, env, end + 1);
        Emitted(IfElseCode(c, rt.code, re.code, n, end), re.next)
    case WhileStmt(id, c, b) =>
      var rb := Scoped(b, env[id := n + 1], n + 2);
      Emitted(LoopCode(c, rb.code, n), rb.next)
    case BreakStmt(l) => Emitted([Goto(env[l])], n)
  }

  function ScopedBlock(ss: seq<Stmt>, env: map<LoopId, LabelId>, n: nat): (r: Emitted)
    requires FreeBreaksSeq(ss) <= env.Keys
    ensures n <= r.next
  {
    if ss == [] then Emitted([], n)
    else
      var k := |ss| - 1;
      var r1 := ScopedBlock(ss[..k], env, n);
      var r2 := Scoped(ss[k], env, r1.next);
      Emitted(r1.code + r2.code, r2.next)
  }

  /** `env` is what `bt` holds for the loops in scope. */
  predicate Agree(env: map<LoopId, LabelId>, bt: map<LoopId, LabelId>) {
    forall k :: k in env ==> k in bt && bt[k] == env[k]
  }

  /** With distinct loop identities, the generator's single, never-shrinking
      break-target map sends every break to the same label as lexical
      scoping does: the exit label of the loop that encloses the break. */
  lemma {:induction false} LowerAgreesWithScoped(s: Stmt, env: map<LoopId, LabelId>, bt: map<LoopId, LabelId>, n: nat)
    requires FreeBreaks(s) <= env.Keys
    requires Agree(env, bt)
    requires UniqueLoops(s) && LoopIds(s) !! env.Keys
    ensures FreeBreaks(s) <= bt.Keys
    ensures var o := Lower(s, bt, n); var r := Scoped(s, env, n);
      o.code == r.code && o.next == r.next
    decreases s, 2
  {
    match s
    case Block(ss) => BlockAgreesWithScoped(ss, env, bt, n);
    case ExprStmt(_) =>
    case ReturnStmt(_) =>
    case IfStmt(c, t, e) => IfAgreesWithScoped(c, t, e, env, bt, n);
    case WhileStmt(id, c, b) => WhileAgreesWithScoped(id, c, b, env, bt, n);
    case BreakStmt(_) =>
  }

  lemma {:induction false} IfAgreesWithScoped(c: Expr, t: Stmt, e: Option<Stmt>, env: map<LoopId, LabelId>, bt: map<LoopId, LabelId>, n: nat)
    requires FreeBreaks(IfStmt(c, t, e)) <= env.Keys
    requires Agree(env, bt)
    requires UniqueLoops(IfStmt(c, t, e)) && LoopIds(IfStmt(c, t, e)) !! env.Keys
    ensures FreeBreaks(IfStmt(c, t, e)) <= bt.Keys
    ensures var o := Lower(IfStmt(c, t, e), bt, n); var r := Scoped(IfStmt(c, t, e), env, n);
      o.code == r.code && o.next == r.next
    decreases IfStmt(c, t, e), 1
  {
    LowerAgreesWithScoped(t, env, bt, n + 1);
    if e.Some? {
      ElseAgreesWithScoped(c, t, e.value, env, bt, n);
    }
  }

  lemma {:induction false} ElseAgreesWithScoped(c: Expr, t: Stmt, e: Stmt, env: map<LoopId, LabelId>, bt: map<LoopId, LabelId>, n: nat)
    requires FreeBreaks(t) + FreeBreaks(e) <= env.Keys
    requires Agree(env, bt)
    requires UniqueLoops(t) && UniqueLoops(e) && (LoopIds(t) + LoopIds(e)) !! env.Keys
    requires FreeBreaks(t) <= bt.Keys
    requires Lower(t, bt, n + 1).code == Scoped(t, env, n + 1).code
    requires Lower(t, bt, n + 1).next == Scoped(t, env, n + 1).next
    ensures FreeBreaks(e) <= bt.Keys
    ensures var o := Lower(IfStmt(c, t, Some(e)), bt, n); var r := Scoped(IfStmt(c, t, Some(e)), env, n);
      o.code == r.code && o.next == r.next
    decreases IfStmt(c, t, Some(e)), 0
  {
    var ot := Lower(t, bt, n + 1);
    assert Agree(env, ot.targets) by {
      LowerKeeps(t, bt, n + 1);
      AgreeAfter(env, bt, ot, LoopIds(t));
    }
    LowerAgreesWithScoped(e, env, ot.targets, ot.next + 1);
  }

  /** Lowering a statement whose loops are not in scope keeps the scope's entries. */
  lemma AgreeAfter(env: map<LoopId, LabelId>, bt: map<LoopId, LabelId>, o: Out, loops: set<LoopId>)
    requires Keeps(o, bt, loops)
    requires Agree(env, bt) && loops !! env.Keys
    ensures Agree(env, o.targets)
  {
  }

  lemma {:induction false} WhileAgreesWithScoped(id: LoopId, c: Expr, b: Stmt, env: map<LoopId, LabelId>, bt: map<LoopId, LabelId>, n: nat)
    requires FreeBreaks(WhileStmt(id, c, b)) <= env.Keys
    requires Agree(env, bt)
    requires UniqueLoops(WhileStmt(id, c, b)) && LoopIds(WhileStmt(id, c, b)) !! env.Keys
    ensures FreeBreaks(WhileStmt(id, c, b)) <= bt.Keys
    ensures var o := Lower(WhileStmt(id, c, b), bt, n); var r := Scoped(WhileStmt(id, c, b), env, n);
      o.code == r.code && o.next == r.next
    decreases WhileStmt(id, c, b), 0
  {
    LowerAgreesWithScoped(b, env[id := n + 1], bt[id := n + 1], n + 2);
  }

  lemma {:induction false} BlockAgreesWithScoped(ss: seq<Stmt>, env: map<LoopId, LabelId>, bt: map<LoopId, LabelId>, n: nat)
    requires FreeBreaksSeq(ss) <= env.Keys
    requires Agree(env, bt)
    requires UniqueLoopsSeq(ss) && LoopIdsSeq(ss) !! env.Keys
    ensures FreeBreaksSeq(ss) <= bt.Keys
    ensures var o := LowerBlock(ss, bt, n); var r := ScopedBlock(ss, env, n);
      o.code == r.code && o.next == r.next
    decreases ss, 1
  {
    if ss != [] {
      var k := |ss| - 1;
      BlockAgreesWithScoped(ss[..k], env, bt, n);
      var o1 := LowerBlock(ss[..k], bt, n);
      LowerBlockKeeps(ss[..k], bt, n);
      AgreeAfter(env, bt, o1, LoopIdsSeq(ss[..k]));
      LowerAgreesWithScoped(ss[k], env, o1.targets, o1.next);
    }
  }
}
