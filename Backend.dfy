/** The statement code generator: a visitor that appends the code of each
    statement to the instruction list of the enclosing function body. Each
    visit is proved to append exactly what Lowering.Lower prescribes, and
    to leave the break-target map and the label supply as Lower does. */
module Backend {
  import opened Ir
  import opened Ast
  import opened Lowering
  import Properties

  class StmtCodeGenerator {
    /** The instruction list of the enclosing function body; visits only append to it. */
    var units: seq<Instr>
    /** The exit label of each loop entered so far. */
    var breakTargets: map<LoopId, LabelId>
    /** The next label the supply of fresh no-op labels hands out. */
    var nextLabel: nat

    /** A generator appending to `body`, with no break target yet; the labels
        it draws are above every label `body` already mentions. */
    constructor (body: seq<Instr>)
      ensures units == body && breakTargets == map[] && nextLabel == Bound(body)
      ensures forall l :: l in Placed(units) + Targets(units) ==> l < nextLabel
    {
      units := body;
      breakTargets := map[];
      nextLabel := Bound(body);
    }

    /** A fresh no-op label, not yet placed. */
    method NewNop() returns (l: LabelId)
      modifies this
      ensures l == old(nextLabel) && nextLabel == l + 1
      ensures units == old(units) && breakTargets == old(breakTargets)
    {
      l := nextLabel;
      nextLabel := nextLabel + 1;
    }

    /** Expression lowering: appends the expression's code and yields its operand. */
    method GenerateExpr(e: Expr) returns (v: Value)
      modifies this
      ensures v == e.value && units == old(units) + ExprCode(e)
      ensures breakTargets == old(breakTargets) && nextLabel == old(nextLabel)
    {
      units := units + ExprCode(e);
      v := e.value;
    }

    /** Dispatch on the kind of statement. */
    method Accept(s: Stmt)
      requires FreeBreaks(s) <= breakTargets.Keys
      modifies this
      ensures units == old(units) + Lower(s, old(breakTargets), old(nextLabel)).code
      ensures breakTargets == Lower(s, old(breakTargets), old(nextLabel)).targets
      ensures nextLabel == Lower(s, old(breakTargets), old(nextLabel)).next
      decreases s, 1
    {
      match s
      case Block(_) => VisitBlock(s);
      case ExprStmt(_) => VisitExprStmt(s);
      case ReturnStmt(_) => VisitReturnStmt(s);
      case IfStmt(_, _, _) => VisitIfStmt(s);
      case WhileStmt(_, _, _) => VisitWhileStmt(s);
      case BreakStmt(_) => VisitBreakStmt(s);
    }

    /** An expression statement appends the expression's code and drops its value. */
    method VisitExprStmt(nd: Stmt)
      requires nd.ExprStmt?
      modifies this
      ensures units == old(units) + ExprCode(nd.expr)
      ensures units == old(units) + Lower(nd, old(breakTargets), old(nextLabel)).code
      ensures breakTargets == old(breakTargets) && nextLabel == old(nextLabel)
      ensures breakTargets == Lower(nd, old(breakTargets), old(nextLabel)).targets
      ensures nextLabel == Lower(nd, old(breakTargets), old(nextLabel)).next
    {
      var _ := GenerateExpr(nd.expr);
    }

    /** A break appends one jump, to the exit label recorded for its loop. */
    method VisitBreakStmt(nd: Stmt)
      requires nd.BreakStmt? && nd.loop in breakTargets
      modifies this
      ensures units == old(units) + [Goto(old(breakTargets)[nd.loop])]
      ensures units == old(units) + Lower(nd, old(breakTargets), old(nextLabel)).code
      ensures breakTargets == old(breakTargets) && nextLabel == old(nextLabel)
      ensures breakTargets == Lower(nd, old(breakTargets), old(nextLabel)).targets
      ensures nextLabel == Lower(nd, old(breakTargets), old(nextLabel)).next
    {
      var exitPoint := breakTargets[nd.loop];
      units := units + [Goto(exitPoint)];
    }

    /** A block visits its statements in source order and emits nothing of its own. */
    method VisitBlock(nd: Stmt)
      requires nd.Block? && FreeBreaks(nd) <= breakTargets.Keys
      modifies this
      ensures units == old(units) + Lower(nd, old(breakTargets), old(nextLabel)).code
      ensures breakTargets == Lower(nd, old(breakTargets), old(nextLabel)).targets
      ensures nextLabel == Lower(nd, old(breakTargets), old(nextLabel)).next
      decreases nd, 0
    {
      var ss := nd.stmts;
      ghost var u0, bt0, n0 := units, breakTargets, nextLabel;
      var i := 0;
      while i < |ss|
        invariant 0 <= i <= |ss|
        invariant FreeBreaksSeq(ss[..i]) <= bt0.Keys
        invariant units == u0 + LowerBlock(ss[..i], bt0, n0).code
        invariant breakTargets == LowerBlock(ss[..i], bt0, n0).targets
        invariant nextLabel == LowerBlock(ss[..i], bt0, n0).next
      {
        BlockStep(ss, i, bt0, n0);
        assert ss[i] in nd.stmts;
        ghost var ob := LowerBlock(ss[..i], bt0, n0);
        Accept(ss[i]);
        ghost var os := Lower(ss[i], ob.targets, ob.next);
        assert units == u0 + ob.code + os.code && breakTargets == os.targets && nextLabel == os.next;
        AppendAssoc(u0, ob.code, os.code);
        i := i + 1;
      }
      assert ss[..i] == ss;
    }

    /** A return appends its expression's code, if any, then one return instruction. */
    method VisitReturnStmt(nd: Stmt)
      requires nd.ReturnStmt?
      modifies this
      ensures nd.result.Some? ==> units == old(units) + ExprCode(nd.result.value) + [Return(nd.result.value.value)]
      ensures nd.result.None? ==> units == old(units) + [ReturnVoid]
      ensures units == old(units) + Lower(nd, old(breakTargets), old(nextLabel)).code
      ensures breakTargets == old(breakTargets) && nextLabel == old(nextLabel)
      ensures breakTargets == Lower(nd, old(breakTargets), old(nextLabel)).targets
      ensures nextLabel == Lower(nd, old(breakTargets), old(nextLabel)).next
    {
      var stmt: Instr;
      if nd.result.Some? {
        var v := GenerateExpr(nd.result.value);
        stmt := Return(v);
      } else {
        stmt := ReturnVoid;
      }
      units := units + [stmt];
      if nd.result.Some? {
        AppendAssoc(old(units), ExprCode(nd.result.value), [stmt]);
      }
    }

    /** An if draws its join label after lowering the condition; with an else
        branch, that label starts the else branch and a second label, drawn
        after the then branch, ends the statement. */
    method VisitIfStmt(nd: Stmt)
      requires nd.IfStmt? && FreeBreaks(nd) <= breakTargets.Keys
      modifies this
      ensures units == old(units) + LowerIf(nd.cond, nd.thn, nd.els, old(breakTargets), old(nextLabel)).code
      ensures breakTargets == LowerIf(nd.cond, nd.thn, nd.els, old(breakTargets), old(nextLabel)).targets
      ensures nextLabel == LowerIf(nd.cond, nd.thn, nd.els, old(breakTargets), old(nextLabel)).next
      decreases nd, 0
    {
      ghost var u0, bt0, n0 := units, breakTargets, nextLabel;
      var cond := GenerateExpr(nd.cond);
      var join := NewNop();
      units := units + [IfZero(cond, join)];
      ghost var pre := units;
      assert breakTargets == bt0 && nextLabel == n0 + 1;
      Accept(nd.thn);
      ghost var ot := Lower(nd.thn, bt0, n0 + 1);
      assert units == pre + ot.code && breakTargets == ot.targets && nextLabel == ot.next;
      if nd.els.Some? {
        var els := join;
        join := NewNop();
        units := units + [Goto(join)];
        units := units + [Nop(els)];
        ghost var mid := units;
        IfElseEmits(u0, nd, bt0, n0);
        assert breakTargets == ot.targets && nextLabel == ot.next + 1;
        Accept(nd.els.value);
        ghost var oe := Lower(nd.els.value, ot.targets, ot.next + 1);
        assert units == mid + oe.code && breakTargets == oe.targets && nextLabel == oe.next;
        units := units + [Nop(join)];
        assert units == u0 + ExprCode(nd.cond) + [IfZero(nd.cond.value, n0)] + ot.code + [Goto(ot.next)] + [Nop(n0)] + oe.code + [Nop(ot.next)];
        assert units == u0 + LowerIf(nd.cond, nd.thn, nd.els, bt0, n0).code;
        assert breakTargets == LowerIf(nd.cond, nd.thn, nd.els, bt0, n0).targets;
        assert nextLabel == LowerIf(nd.cond, nd.thn, nd.els, bt0, n0).next;
      } else {
        units := units + [Nop(join)];
        assert units == u0 + ExprCode(nd.cond) + [IfZero(nd.cond.value, n0)] + ot.code + [Nop(n0)];
        IfThenEmits(u0, nd, bt0, n0);
        assert units == u0 + LowerIf(nd.cond, nd.thn, nd.els, bt0, n0).code;
        assert breakTargets == LowerIf(nd.cond, nd.thn, nd.els, bt0, n0).targets;
        assert nextLabel == LowerIf(nd.cond, nd.thn, nd.els, bt0, n0).next;
      }
    }

    /** A loop draws its head and exit labels, records the exit label as its
        break target, and only then lowers its body. */
    method VisitWhileStmt(nd: Stmt)
      requires nd.WhileStmt? && FreeBreaks(nd) <= breakTargets.Keys
      modifies this
      ensures units == old(units) + LowerWhile(nd.id, nd.cond, nd.body, old(breakTargets), old(nextLabel)).code
      ensures breakTargets == LowerWhile(nd.id, nd.cond, nd.body, old(breakTargets), old(nextLabel)).targets
      ensures nextLabel == LowerWhile(nd.id, nd.cond, nd.body, old(breakTargets), old(nextLabel)).next
      decreases nd, 0
    {
      ghost var u0, bt0, n0 := units, breakTargets, nextLabel;
      var label0 := NewNop();
      var label1 := NewNop();
      breakTargets := breakTargets[nd.id := label1];
      units := units + [Nop(label0)];
      var condition := GenerateExpr(nd.cond);
      units := units + [IfZero(condition, label1)];
      ghost var pre := units;
      WhileEmits(u0, nd, bt0, n0);
      assert breakTargets == bt0[nd.id := n0 + 1] && nextLabel == n0 + 2;
      Accept(nd.body);
      ghost var ob := Lower(nd.body, bt0[nd.id := n0 + 1], n0 + 2);
      assert units == pre + ob.code && breakTargets == ob.targets && nextLabel == ob.next;
      units := units + [Goto(label0)];
      units := units + [Nop(label1)];
      assert units == u0 + [Nop(n0)] + ExprCode(nd.cond) + [IfZero(nd.cond.value, n0 + 1)] + ob.code + [Goto(n0)] + [Nop(n0 + 1)];
    }
  }

  /** A whole run of the generator: created on the instructions `body` a
      function body already holds, then made to visit the body's statement
      `s`. When `body` places each label once and jumps only to labels it
      places, so does the final instruction list, whose first part is still
      `body`; and every label the run drew is placed in it. */
  method GenerateFunctionBody(body: seq<Instr>, s: Stmt) returns (g: StmtCodeGenerator)
    requires PlacedOnce(body) && JumpsClosed(body) && FreeBreaks(s) == {}
    ensures |body| <= |g.units| && g.units[..|body|] == body
    ensures PlacedOnce(g.units) && JumpsClosed(g.units) && JumpsResolve(g.units)
    ensures forall l :: Bound(body) <= l < g.nextLabel ==> l in Placed(g.units)
  {
    g := new StmtCodeGenerator(body);
    g.Accept(s);
    Properties.WholeBody(body, s);
  }

  /** What the visit of a loop appends, and the map and label supply it
      leaves, are its lowering's. */
  lemma WhileEmits(u: seq<Instr>, nd: Stmt, bt: map<LoopId, LabelId>, n: nat)
    requires nd.WhileStmt? && FreeBreaks(nd) <= bt.Keys
    ensures FreeBreaks(nd.body) <= bt[nd.id := n + 1].Keys
    ensures var ob := Lower(nd.body, bt[nd.id := n + 1], n + 2);
      var o := LowerWhile(nd.id, nd.cond, nd.body, bt, n);
      && u + [Nop(n)] + ExprCode(nd.cond) + [IfZero(nd.cond.value, n + 1)] + ob.code + [Goto(n)] + [Nop(n + 1)] == u + o.code
      && ob.targets == o.targets && ob.next == o.next
  {
    LoopAppend(u, nd.cond, Lower(nd.body, bt[nd.id := n + 1], n + 2).code, n);
  }

  /** The statement at `i` may only break out of loops the block's map covers,
      and the block's first `i + 1` statements lower as the first `i` followed by it. */
  lemma BlockStep(ss: seq<Stmt>, i: nat, bt: map<LoopId, LabelId>, n: nat)
    requires i < |ss| && FreeBreaksSeq(ss) <= bt.Keys
    ensures FreeBreaksSeq(ss[..i]) <= bt.Keys && FreeBreaksSeq(ss[..i + 1]) <= bt.Keys
    ensures FreeBreaks(ss[i]) <= LowerBlock(ss[..i], bt, n).targets.Keys
    ensures var o1 := LowerBlock(ss[..i], bt, n);
      var o2 := Lower(ss[i], o1.targets, o1.next);
      var o := LowerBlock(ss[..i + 1], bt, n);
      o.code == o1.code + o2.code && o.targets == o2.targets && o.next == o2.next
  {
    FreeBreaksPrefix(ss, i + 1);
    assert ss[..i + 1][..i] == ss[..i];
    assert ss[..i + 1][i] == ss[i];
  }

  lemma {:induction false} FreeBreaksPrefix(ss: seq<Stmt>, j: nat)
    requires j <= |ss|
    ensures FreeBreaksSeq(ss[..j]) <= FreeBreaksSeq(ss)
    decreases |ss|
  {
    if j < |ss| {
      assert ss[..|ss| - 1][..j] == ss[..j];
      FreeBreaksPrefix(ss[..|ss| - 1], j);
    } else {
      assert ss[..j] == ss;
    }
  }

  /** What the visit of an if without else appends, and the map and label
      supply it leaves, are its lowering's. */
  lemma IfThenEmits(u: seq<Instr>, nd: Stmt, bt: map<LoopId, LabelId>, n: nat)
    requires nd.IfStmt? && nd.els.None? && FreeBreaks(nd) <= bt.Keys
    ensures FreeBreaks(nd.thn) <= bt.Keys
    ensures var ot := Lower(nd.thn, bt, n + 1); var o := LowerIf(nd.cond, nd.thn, nd.els, bt, n);
      && u + ExprCode(nd.cond) + [IfZero(nd.cond.value, n)] + ot.code + [Nop(n)] == u + o.code
      && ot.targets == o.targets && ot.next == o.next
  {
    IfThenAppend(u, nd.cond, Lower(nd.thn, bt, n + 1).code, n);
  }

  /** What the visit of an if with else appends, and the map and label
      supply it leaves, are its lowering's. */
  lemma IfElseEmits(u: seq<Instr>, nd: Stmt, bt: map<LoopId, LabelId>, n: nat)
    requires nd.IfStmt? && nd.els.Some? && FreeBreaks(nd) <= bt.Keys
    ensures FreeBreaks(nd.thn) <= bt.Keys && FreeBreaks(nd.els.value) <= Lower(nd.thn, bt, n + 1).targets.Keys
    ensures var ot := Lower(nd.thn, bt, n + 1); var oe := Lower(nd.els.value, ot.targets, ot.next + 1);
      var o := LowerIf(nd.cond, nd.thn, nd.els, bt, n);
      && u + ExprCode(nd.cond) + [IfZero(nd.cond.value, n)] + ot.code + [Goto(ot.next)] + [Nop(n)] + oe.code + [Nop(ot.next)] == u + o.code
      && oe.targets == o.targets && oe.next == o.next
  {
    var ot := Lower(nd.thn, bt, n + 1);
    IfElseAppend(u, nd.cond, ot.code, Lower(nd.els.value, ot.targets, ot.next + 1).code, n, ot.next);
  }

  lemma IfThenAppend(u: seq<Instr>, c: Expr, tc: seq<Instr>, join: LabelId)
    ensures u + ExprCode(c) + [IfZero(c.value, join)] + tc + [Nop(join)] == u + IfThenCode(c, tc, join)
  {
  }

  lemma IfElseAppend(u: seq<Instr>, c: Expr, tc: seq<Instr>, ec: seq<Instr>, els: LabelId, end: LabelId)
    ensures u + ExprCode(c) + [IfZero(c.value, els)] + tc + [Goto(end)] + [Nop(els)] + ec + [Nop(end)]
      == u + IfElseCode(c, tc, ec, els, end)
  {
  }

  lemma LoopAppend(u: seq<Instr>, c: Expr, bc: seq<Instr>, label0: LabelId)
    ensures u + [Nop(label0)] + ExprCode(c) + [IfZero(c.value, label0 + 1)] + bc + [Goto(label0)] + [Nop(label0 + 1)]
      == u + LoopCode(c, bc, label0)
  {
  }
}
