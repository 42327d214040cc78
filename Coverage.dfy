/** No label is wasted: every label the supply hands out while a statement
    is lowered is placed in its code, and every label placed is the target
    of some jump in that code. Together with `Lowering.Fresh` this makes the
    labels a statement places exactly the range [n, next). */
module Coverage {
  import opened Ir
  import opened Ast
  import opened Lowering

  /** Each label drawn from [n, o.next) is placed, and no placed label is
      dead (without a jump to it). */
  ghost predicate Dense(o: Out, n: nat) {
    && (forall l :: n <= l < o.next ==> l in Placed(o.code))
    && Placed(o.code) <= Targets(o.code)
  }

  lemma {:induction false} LowerDense(s: Stmt, bt: map<LoopId, LabelId>, n: nat)
    requires FreeBreaks(s) <= bt.Keys
    ensures Dense(Lower(s, bt, n), n)
    decreases s, 1
  {
    match s
    case Block(ss) => LowerBlockDense(ss, bt, n);
    case ExprStmt(e) =>
    case ReturnStmt(r) =>
      if r.Some? {
        Single(Return(r.value.value));
        PlacedConcat(ExprCode(r.value), [Return(r.value.value)]);
      } else {
        Single(ReturnVoid);
      }
    case IfStmt(c, t, e) =>
      if e.None? { IfThenDense(c, t, bt, n); } else { IfElseDense(c, t, e.value, bt, n); }
    case WhileStmt(id, c, b) => WhileDense(id, c, b, bt, n);
    case BreakStmt(l) => Single(Goto(bt[l]));
  }

  lemma {:induction false} IfThenDense(c: Expr, t: Stmt, bt: map<LoopId, LabelId>, n: nat)
    requires FreeBreaks(t) <= bt.Keys
    ensures Dense(Lower(IfStmt(c, t, None), bt, n), n)
    decreases IfStmt(c, t, None), 0
  {
    LowerDense(t, bt, n + 1);
    LowerFresh(t, bt, n + 1);
    IfThenUnfold(c, t, bt, n);
    IfThenDenseStep(Lower(IfStmt(c, t, None), bt, n), Lower(t, bt, n + 1), c, n);
  }

  /** The join label is the one label an if without else draws itself, and
      its test jumps to it. */
  lemma IfThenDenseStep(o: Out, ot: Out, c: Expr, n: nat)
    requires Dense(ot, n + 1) && Fresh(ot, n + 1)
    requires o == Out(IfThenCode(c, ot.code, n), ot.targets, ot.next)
    ensures Dense(o, n)
  {
    IfThenLayout(c, ot.code, n, ot.next);
  }

  lemma {:induction false} IfElseDense(c: Expr, t: Stmt, e: Stmt, bt: map<LoopId, LabelId>, n: nat)
    requires FreeBreaks(t) + FreeBreaks(e) <= bt.Keys
    ensures Dense(Lower(IfStmt(c, t, Some(e)), bt, n), n)
    decreases IfStmt(c, t, Some(e)), 0
  {
    var ot := Lower(t, bt, n + 1);
    LowerDense(t, bt, n + 1);
    LowerFresh(t, bt, n + 1);
    LowerDense(e, ot.targets, ot.next + 1);
    LowerFresh(e, ot.targets, ot.next + 1);
    IfElseUnfold(c, t, e, bt, n);
    IfElseDenseStep(Lower(IfStmt(c, t, Some(e)), bt, n), ot, Lower(e, ot.targets, ot.next + 1), c, n);
  }

  /** An if with else draws `els` before its then branch and `end` between
      its branches; its test jumps to `els` and the then branch's last jump
      to `end`. */
  lemma IfElseDenseStep(o: Out, ot: Out, oe: Out, c: Expr, n: nat)
    requires Dense(ot, n + 1) && Fresh(ot, n + 1)
    requires Dense(oe, ot.next + 1) && Fresh(oe, ot.next + 1)
    requires o == Out(IfElseCode(c, ot.code, oe.code, n, ot.next), oe.targets, oe.next)
    ensures Dense(o, n)
  {
    IfElseLayout(c, ot.code, oe.code, n, ot.next, oe.next);
  }

  lemma {:induction false} WhileDense(id: LoopId, c: Expr, b: Stmt, bt: map<LoopId, LabelId>, n: nat)
    requires FreeBreaks(b) <= bt.Keys + {id}
    ensures Dense(Lower(WhileStmt(id, c, b), bt, n), n)
    decreases WhileStmt(id, c, b), 0
  {
    LowerDense(b, bt[id := n + 1], n + 2);
    LowerFresh(b, bt[id := n + 1], n + 2);
    WhileUnfold(id, c, b, bt, n);
    WhileDenseStep(Lower(WhileStmt(id, c, b), bt, n), Lower(b, bt[id := n + 1], n + 2), c, n);
  }

  /** A loop draws its head and exit labels; the jump back targets the head
      and the test targets the exit. */
  lemma WhileDenseStep(o: Out, ob: Out, c: Expr, n: nat)
    requires Dense(ob, n + 2) && Fresh(ob, n + 2)
    requires o == Out(LoopCode(c, ob.code, n), ob.targets, ob.next)
    ensures Dense(o, n)
  {
    WhileLayout(c, ob.code, n, ob.next);
  }

  lemma {:induction false} LowerBlockDense(ss: seq<Stmt>, bt: map<LoopId, LabelId>, n: nat)
    requires FreeBreaksSeq(ss) <= bt.Keys
    ensures Dense(LowerBlock(ss, bt, n), n)
    decreases ss, 1
  {
    if ss != [] {
      var k := |ss| - 1;
      var o1 := LowerBlock(ss[..k], bt, n);
      LowerBlockDense(ss[..k], bt, n);
      LowerDense(ss[k], o1.targets, o1.next);
      var o2 := Lower(ss[k], o1.targets, o1.next);
      PlacedConcat(o1.code, o2.code);
      TargetsConcat(o1.code, o2.code);
    }
  }
}
