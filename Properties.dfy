/** Properties of the lowering: of a whole function body, of each statement
    kind's layout, and of blocks. */
module Properties {
  import opened Ir
  import opened Ast
  import opened Lowering
  import opened Coverage

  /** A whole function body is lowered with no break target to begin with
      (every break lies inside its loop). Its code places each label once,
      every jump in it lands on exactly one placed label, the labels it
      places are exactly those drawn, [n, next), and every one of them is
      the target of some jump. */
  lemma FunctionBodyWellFormed(s: Stmt, n: nat)
    requires FreeBreaks(s) == {}
    ensures var o := Lower(s, map[], n);
      && PlacedOnce(o.code)
      && JumpsClosed(o.code)
      && JumpsResolve(o.code)
      && (forall l :: l in Placed(o.code) <==> n <= l < o.next)
      && Placed(o.code) <= Targets(o.code)
      && o.targets.Keys == LoopIds(s)
  {
    var o := Lower(s, map[], n);
    LowerSound(s, map[], {}, n);
    LowerDense(s, map[], n);
    ClosedResolves(o.code);
  }

  /** A generator created on a function body's instructions `body`, which
      place each label once and jump only to labels they place, draws its
      labels from Bound(body) up. Lowering a statement with no free break
      onto the end of `body` keeps both properties, and every label drawn
      ends up placed. */
  lemma WholeBody(body: seq<Instr>, s: Stmt)
    requires PlacedOnce(body) && JumpsClosed(body) && FreeBreaks(s) == {}
    ensures var o := Lower(s, map[], Bound(body));
      && PlacedOnce(body + o.code)
      && JumpsClosed(body + o.code)
      && JumpsResolve(body + o.code)
      && (forall l :: Bound(body) <= l < o.next ==> l in Placed(body + o.code))
  {
    var o := Lower(s, map[], Bound(body));
    FunctionBodyWellFormed(s, Bound(body));
    assert Placed(body) !! Placed(o.code) by {
      forall l | l in Placed(body) ensures l !in Placed(o.code) {
        assert l in Placed(body) + Targets(body);
      }
    }
    Join(body, o.code);
    ClosedResolves(body + o.code);
  }

  /** The layout of a pre-test loop with head label `label0`, condition `c`
      and body code `bc`: the head label is the first instruction and is
      placed nowhere else; the condition's code follows it, then the jump to
      the exit label `label0 + 1` taken when the condition is zero; then the
      body, then the jump back to the head; the exit label is the last
      instruction and is placed nowhere else, so a jump to it lands
      immediately after the loop. */
  ghost predicate LoopShape(code: seq<Instr>, c: Expr, bc: seq<Instr>, label0: LabelId) {
    var k := |ExprCode(c)|;
    && |code| == k + |bc| + 4
    && PlacedOnlyAt(code, label0, 0)
    && code[1..k + 1] == ExprCode(c)
    && code[k + 1] == IfZero(c.value, label0 + 1)
    && code[k + 2..|code| - 2] == bc
    && code[|code| - 2] == Goto(label0)
    && PlacedOnlyAt(code, label0 + 1, |code| - 1)
  }

  /** A loop lowers to the pre-test layout, with two distinct fresh labels. */
  lemma WhileLayoutAt(id: LoopId, c: Expr, b: Stmt, bt: map<LoopId, LabelId>, n: nat)
    requires FreeBreaks(b) <= bt.Keys + {id}
    ensures LoopShape(Lower(WhileStmt(id, c, b), bt, n).code, c, Lower(b, bt[id := n + 1], n + 2).code, n)
    ensures n + 1 < Lower(WhileStmt(id, c, b), bt, n).next
  {
    LowerFresh(b, bt[id := n + 1], n + 2);
    WhileUnfold(id, c, b, bt, n);
    LoopPositions(c, Lower(b, bt[id := n + 1], n + 2).code, n, Lower(b, bt[id := n + 1], n + 2).next);
  }

  lemma LoopPositions(c: Expr, bc: seq<Instr>, label0: LabelId, hi: nat)
    requires PlacedOnce(bc)
    requires forall l :: l in Placed(bc) ==> label0 + 1 < l < hi
    ensures LoopShape(LoopCode(c, bc, label0), c, bc, label0)
  {
    var code := LoopCode(c, bc, label0);
    WhileLayout(c, bc, label0, hi);
    UniquePosition(code, 0);
    UniquePosition(code, |code| - 1);
  }

  /** After a loop whose identity no inner loop reuses, the loop's break
      target is its exit label, the label placed right after the loop. */
  lemma WhileExitTarget(id: LoopId, c: Expr, b: Stmt, bt: map<LoopId, LabelId>, n: nat)
    requires FreeBreaks(b) <= bt.Keys + {id}
    requires UniqueLoops(WhileStmt(id, c, b))
    ensures var o := Lower(WhileStmt(id, c, b), bt, n);
      id in o.targets && o.targets[id] == n + 1
  {
    LowerKeeps(b, bt[id := n + 1], n + 2);
    WhileUnfold(id, c, b, bt, n);
  }

  /** The layout of an if without else: the condition's code, the jump to
      `join` taken when the condition is zero, the then branch, and `join`,
      which is the last instruction and is placed nowhere else. */
  ghost predicate IfThenShape(code: seq<Instr>, c: Expr, tc: seq<Instr>, join: LabelId) {
    var k := |ExprCode(c)|;
    && |code| == k + |tc| + 2
    && code[..k] == ExprCode(c)
    && code[k] == IfZero(c.value, join)
    && code[k + 1..|code| - 1] == tc
    && PlacedOnlyAt(code, join, |code| - 1)
  }

  /** An if without else lowers to its layout, with a fresh join label. */
  lemma IfThenLayoutAt(c: Expr, t: Stmt, bt: map<LoopId, LabelId>, n: nat)
    requires FreeBreaks(t) <= bt.Keys
    ensures IfThenShape(Lower(IfStmt(c, t, None), bt, n).code, c, Lower(t, bt, n + 1).code, n)
    ensures n < Lower(IfStmt(c, t, None), bt, n).next
  {
    LowerFresh(t, bt, n + 1);
    IfThenUnfold(c, t, bt, n);
    IfThenPositions(c, Lower(t, bt, n + 1).code, n, Lower(t, bt, n + 1).next);
  }

  lemma IfThenPositions(c: Expr, tc: seq<Instr>, join: LabelId, hi: nat)
    requires PlacedOnce(tc)
    requires forall l :: l in Placed(tc) ==> join < l < hi
    ensures IfThenShape(IfThenCode(c, tc, join), c, tc, join)
  {
    var code := IfThenCode(c, tc, join);
    IfThenLayout(c, tc, join, hi);
    UniquePosition(code, |code| - 1);
  }

  /** The layout of an if with else: the condition's code, the jump to `els`
      taken when the condition is zero, the then branch, the jump to `end`,
      the label `els` (placed there and nowhere else), the else branch, and
      `end`, which is the last instruction and is placed nowhere else. */
  ghost predicate IfElseShape(code: seq<Instr>, c: Expr, tc: seq<Instr>, ec: seq<Instr>, els: LabelId, end: LabelId) {
    var k := |ExprCode(c)|;
    var p := k + 1 + |tc|;
    && |code| == p + |ec| + 3
    && code[..k] == ExprCode(c)
    && code[k] == IfZero(c.value, els)
    && code[k + 1..p] == tc
    && code[p] == Goto(end)
    && PlacedOnlyAt(code, els, p + 1)
    && code[p + 2..|code| - 1] == ec
    && PlacedOnlyAt(code, end, |code| - 1)
  }

  /** An if with else lowers to this layout (lemma IfElseUnfold); with
      fresh branches, its two labels are placed once each, `end` is drawn
      after every label of the then branch, and the whole statement draws
      beyond `end`. */
  lemma IfElseLayoutOf(o: Out, ot: Out, oe: Out, c: Expr, n: nat)
    requires Fresh(ot, n + 1) && Fresh(oe, ot.next + 1)
    requires o == Out(IfElseCode(c, ot.code, oe.code, n, ot.next), oe.targets, oe.next)
    ensures IfElseShape(o.code, c, ot.code, oe.code, n, ot.next)
    ensures n < ot.next < o.next
  {
    IfElsePositions(c, ot.code, oe.code, n, ot.next, oe.next);
  }

  /** An if with else lowers to its layout: `els` is the first label drawn,
      `end` is drawn after every label of the then branch, and the else
      branch is lowered from the map and supply the then branch left. */
  lemma IfElseLayoutAt(c: Expr, t: Stmt, e: Stmt, bt: map<LoopId, LabelId>, n: nat)
    requires FreeBreaks(t) + FreeBreaks(e) <= bt.Keys
    ensures IfElseShape(Lower(IfStmt(c, t, Some(e)), bt, n).code, c, Lower(t, bt, n + 1).code,
                        Lower(e, Lower(t, bt, n + 1).targets, Lower(t, bt, n + 1).next + 1).code, n, Lower(t, bt, n + 1).next)
    ensures n < Lower(t, bt, n + 1).next < Lower(IfStmt(c, t, Some(e)), bt, n).next
  {
    LowerFresh(t, bt, n + 1);
    LowerFresh(e, Lower(t, bt, n + 1).targets, Lower(t, bt, n + 1).next + 1);
    IfElseUnfold(c, t, e, bt, n);
    IfElseLayoutOf(Lower(IfStmt(c, t, Some(e)), bt, n), Lower(t, bt, n + 1),
                   Lower(e, Lower(t, bt, n + 1).targets, Lower(t, bt, n + 1).next + 1), c, n);
  }

  lemma IfElsePositions(c: Expr, tc: seq<Instr>, ec: seq<Instr>, els: LabelId, end: LabelId, hi: nat)
    requires PlacedOnce(tc) && PlacedOnce(ec)
    requires els < end
    requires forall l :: l in Placed(tc) ==> els < l < end
    requires forall l :: l in Placed(ec) ==> end < l < hi
    ensures IfElseShape(IfElseCode(c, tc, ec, els, end), c, tc, ec, els, end)
  {
    var code := IfElseCode(c, tc, ec, els, end);
    IfElseLayout(c, tc, ec, els, end, hi);
    UniquePosition(code, |ExprCode(c)| + 1 + |tc| + 1);
    UniquePosition(code, |code| - 1);
  }

  lemma {:induction false} FreeBreaksConcat(a: seq<Stmt>, b: seq<Stmt>)
    ensures FreeBreaksSeq(a + b) == FreeBreaksSeq(a) + FreeBreaksSeq(b)
    decreases |b|
  {
    if b != [] {
      var k := |b| - 1;
      assert (a + b)[..|a + b| - 1] == a + b[..k];
      FreeBreaksConcat(a, b[..k]);
    } else {
      assert a + b == a;
    }
  }

  /** Lowering a block is lowering its statements one after another: the
      code of `a + b` is the code of `a` followed by the code of `b`, which
      starts from the map and label supply `a` left behind. So a nested
      block contributes nothing of its own, and splitting a block in two
      does not change its code. */
  lemma {:induction false} BlockConcat(a: seq<Stmt>, b: seq<Stmt>, bt: map<LoopId, LabelId>, n: nat)
    requires FreeBreaksSeq(a + b) <= bt.Keys
    ensures FreeBreaksSeq(a) <= bt.Keys && FreeBreaksSeq(b) <= LowerBlock(a, bt, n).targets.Keys
    ensures var o1 := LowerBlock(a, bt, n);
      var o2 := LowerBlock(b, o1.targets, o1.next);
      var o := LowerBlock(a + b, bt, n);
      o.code == o1.code + o2.code && o.targets == o2.targets && o.next == o2.next
    decreases |b|
  {
    FreeBreaksConcat(a, b);
    if b == [] {
      assert a + b == a;
    } else {
      var k := |b| - 1;
      assert (a + b)[..|a + b| - 1] == a + b[..k];
      assert (a + b)[|a + b| - 1] == b[k];
      FreeBreaksConcat(a, b[..k]);
      BlockConcat(a, b[..k], bt, n);
      var o1 := LowerBlock(a, bt, n);
      var o2 := LowerBlock(b[..k], o1.targets, o1.next);
      AppendAssoc(o1.code, o2.code, Lower(b[k], o2.targets, o2.next).code);
    }
  }

  /** Lowering only adds break targets: when none of the statement's loops
      is already in the map, every existing entry survives unchanged, and
      the new entries are exactly the statement's loops. */
  lemma LowerExtends(s: Stmt, bt: map<LoopId, LabelId>, n: nat)
    requires FreeBreaks(s) <= bt.Keys && LoopIds(s) !! bt.Keys
    ensures var o := Lower(s, bt, n);
      && (forall k :: k in bt ==> k in o.targets && o.targets[k] == bt[k])
      && o.targets.Keys - bt.Keys == LoopIds(s)
  {
    LowerKeeps(s, bt, n);
  }

  /** `while (x) { break; }` with no label drawn yet: the head label, the
      test jumping to the exit label, the break jumping to the exit label,
      the jump back to the head, and the exit label. */
  lemma WhileBreakExample(id: LoopId, x: Value)
    ensures Lower(WhileStmt(id, Expr([], x), BreakStmt(id)), map[], 0).code
      == [Nop(0), IfZero(x, 1), Goto(1), Goto(0), Nop(1)]
  {
    WhileUnfold(id, Expr([], x), BreakStmt(id), map[], 0);
    assert ExprCode(Expr([], x)) == [];
  }

  /** `if (x) { return; } else { return 1; }` with labels drawn from `n`:
      the else label is `n`, and the end label, drawn after the then
      branch (which draws none), is `n + 1`. */
  lemma IfReturnExample(x: Value, n: nat)
    ensures Lower(IfStmt(Expr([], x), ReturnStmt(None), Some(ReturnStmt(Some(Expr([], Const(1)))))), map[], n).code
      == [IfZero(x, n), ReturnVoid, Goto(n + 1), Nop(n), Return(Const(1)), Nop(n + 1)]
  {
    IfElseUnfold(Expr([], x), ReturnStmt(None), ReturnStmt(Some(Expr([], Const(1)))), map[], n);
    assert ExprCode(Expr([], x)) == [] && ExprCode(Expr([], Const(1))) == [];
  }

  /** `while (x) { if (y) { break; } }`: the break inside the if jumps to
      the loop's exit label `1`, not to the if's join label `2`. */
  lemma WhileIfBreakExample(id: LoopId, x: Value, y: Value)
    ensures FreeBreaks(WhileStmt(id, Expr([], x), IfStmt(Expr([], y), BreakStmt(id), None))) == {}
    ensures Lower(WhileStmt(id, Expr([], x), IfStmt(Expr([], y), BreakStmt(id), None)), map[], 0).code
      == [Nop(0), IfZero(x, 1), IfZero(y, 2), Goto(1), Nop(2), Goto(0), Nop(1)]
  {
    assert FreeBreaks(IfStmt(Expr([], y), BreakStmt(id), None)) == {id};
    WhileUnfold(id, Expr([], x), IfStmt(Expr([], y), BreakStmt(id), None), map[], 0);
    IfThenUnfold(Expr([], y), BreakStmt(id), map[id := 1], 2);
    assert ExprCode(Expr([], x)) == [] && ExprCode(Expr([], y)) == [];
  }
}
