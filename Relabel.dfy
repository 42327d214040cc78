/** Labels are identities, not positions: lowering a statement from a label
    supply that starts `d` further on, with every break target `d` further
    on, yields the same code with every label moved by `d`, the same map
    with its labels moved by `d`, and a supply `d` further on. So the
    structure a statement lowers to does not depend on where the supply
    stood when its visit began. */
module Relabel {
  import opened Ir
  import opened Ast
  import opened Lowering

  function ShiftInstr(i: Instr, d: nat): Instr {
    match i
    case Nop(l) => Nop(l + d)
    case IfZero(v, l) => IfZero(v, l + d)
    case Goto(l) => Goto(l + d)
    case _ => i
  }

  /** `code` with every label it places or targets moved by `d`. */
  function Shift(code: seq<Instr>, d: nat): seq<Instr> {
    if code == [] then [] else [ShiftInstr(code[0], d)] + Shift(code[1..], d)
  }

  /** `bt` with every break target moved by `d`. */
  function ShiftMap(bt: map<LoopId, LabelId>, d: nat): map<LoopId, LabelId> {
    map k | k in bt :: bt[k] + d
  }

  /** The effect `o` with every label moved by `d`. */
  function ShiftOut(o: Out, d: nat): Out {
    Out(Shift(o.code, d), ShiftMap(o.targets, d), o.next + d)
  }

  /** The effect of an if without else, from that of its then branch. */
  function IfThenOut(c: Expr, ot: Out, join: LabelId): Out {
    Out(IfThenCode(c, ot.code, join), ot.targets, ot.next)
  }

  /** The effect of an if with else, from those of its two branches. */
  function IfElseOut(c: Expr, ot: Out, oe: Out, els: LabelId): Out {
    Out(IfElseCode(c, ot.code, oe.code, els, ot.next), oe.targets, oe.next)
  }

  /** The effect of a loop, from that of its body. */
  function LoopOut(c: Expr, ob: Out, label0: LabelId): Out {
    Out(LoopCode(c, ob.code, label0), ob.targets, ob.next)
  }

  lemma {:induction false} ShiftConcat(a: seq<Instr>, b: seq<Instr>, d: nat)
    ensures Shift(a + b, d) == Shift(a, d) + Shift(b, d)
  {
    if a == [] {
      assert a + b == b;
    } else {
      assert (a + b)[1..] == a[1..] + b;
      ShiftConcat(a[1..], b, d);
    }
  }

  /** Code that places and targets no label is left as it is. */
  lemma {:induction false} ShiftOpaque(code: seq<Instr>, d: nat)
    requires forall i :: 0 <= i < |code| ==> code[i].Opaque?
    ensures Shift(code, d) == code
  {
    if code != [] {
      ShiftOpaque(code[1..], d);
    }
  }

  /** Expression code mentions no label. */
  lemma ShiftExpr(e: Expr, d: nat)
    ensures Shift(ExprCode(e), d) == ExprCode(e)
  {
    ShiftOpaque(ExprCode(e), d);
  }

  lemma ShiftMapUpdate(bt: map<LoopId, LabelId>, id: LoopId, l: LabelId, d: nat)
    ensures ShiftMap(bt[id := l], d) == ShiftMap(bt, d)[id := l + d]
  {
  }

  lemma {:induction false} LowerShift(s: Stmt, bt: map<LoopId, LabelId>, n: nat, bt2: map<LoopId, LabelId>, m: nat, d: nat)
    requires FreeBreaks(s) <= bt.Keys && bt2 == ShiftMap(bt, d) && m == n + d
    ensures FreeBreaks(s) <= bt2.Keys
    ensures Lower(s, bt2, m) == ShiftOut(Lower(s, bt, n), d)
    decreases s, 1
  {
    match s
    case Block(ss) => LowerBlockShift(ss, bt, n, bt2, m, d);
    case ExprStmt(e) => ShiftExpr(e, d);
    case ReturnStmt(r) =>
      if r.Some? {
        ShiftExpr(r.value, d);
        ShiftConcat(ExprCode(r.value), [Return(r.value.value)], d);
      } else {
        assert Shift([ReturnVoid], d) == [ReturnVoid];
      }
    case IfStmt(c, t, e) =>
      if e.None? { IfThenShift(c, t, bt, n, bt2, m, d); } else { IfElseShift(c, t, e.value, bt, n, bt2, m, d); }
    case WhileStmt(id, c, b) => WhileShift(id, c, b, bt, n, bt2, m, d);
    case BreakStmt(l) => assert Shift([Goto(bt[l])], d) == [Goto(bt[l] + d)];
  }

  lemma {:induction false} IfThenShift(c: Expr, t: Stmt, bt: map<LoopId, LabelId>, n: nat, bt2: map<LoopId, LabelId>, m: nat, d: nat)
    requires FreeBreaks(t) <= bt.Keys && bt2 == ShiftMap(bt, d) && m == n + d
    ensures FreeBreaks(t) <= bt2.Keys
    ensures Lower(IfStmt(c, t, None), bt2, m) == ShiftOut(Lower(IfStmt(c, t, None), bt, n), d)
    decreases IfStmt(c, t, None), 0
  {
    LowerShift(t, bt, n + 1, bt2, m + 1, d);
    IfThenUnfold(c, t, bt, n);
    IfThenUnfold(c, t, bt2, m);
    IfThenOutShift(c, Lower(t, bt, n + 1), n, d);
  }

  lemma IfThenOutShift(c: Expr, ot: Out, join: LabelId, d: nat)
    ensures ShiftOut(IfThenOut(c, ot, join), d) == IfThenOut(c, ShiftOut(ot, d), join + d)
  {
    var pre := ExprCode(c) + [IfZero(c.value, join)];
    ShiftExpr(c, d);
    ShiftConcat(ExprCode(c), [IfZero(c.value, join)], d);
    assert Shift([IfZero(c.value, join)], d) == [IfZero(c.value, join + d)];
    ShiftConcat(pre, ot.code, d);
    ShiftConcat(pre + ot.code, [Nop(join)], d);
    assert Shift([Nop(join)], d) == [Nop(join + d)];
  }

  lemma {:induction false} IfElseShift(c: Expr, t: Stmt, e: Stmt, bt: map<LoopId, LabelId>, n: nat, bt2: map<LoopId, LabelId>, m: nat, d: nat)
    requires FreeBreaks(t) + FreeBreaks(e) <= bt.Keys && bt2 == ShiftMap(bt, d) && m == n + d
    ensures FreeBreaks(t) + FreeBreaks(e) <= bt2.Keys
    ensures Lower(IfStmt(c, t, Some(e)), bt2, m) == ShiftOut(Lower(IfStmt(c, t, Some(e)), bt, n), d)
    decreases IfStmt(c, t, Some(e)), 0
  {
    LowerShift(t, bt, n + 1, bt2, m + 1, d);
    IfElseShiftElse(c, t, e, bt, n, bt2, m, d);
  }

  /** The else branch, once the then branch is known to shift. */
  lemma {:induction false} IfElseShiftElse(c: Expr, t: Stmt, e: Stmt, bt: map<LoopId, LabelId>, n: nat, bt2: map<LoopId, LabelId>, m: nat, d: nat)
    requires FreeBreaks(t) <= bt.Keys && FreeBreaks(e) <= bt.Keys
    requires FreeBreaks(t) <= bt2.Keys && FreeBreaks(e) <= bt2.Keys && m == n + d
    requires Lower(t, bt2, m + 1) == ShiftOut(Lower(t, bt, n + 1), d)
    ensures Lower(IfStmt(c, t, Some(e)), bt2, m) == ShiftOut(Lower(IfStmt(c, t, Some(e)), bt, n), d)
    decreases IfStmt(c, t, Some(e)), -1
  {
    var ot, ot2 := Lower(t, bt, n + 1), Lower(t, bt2, m + 1);
    var oe, oe2 := Lower(e, ot.targets, ot.next + 1), Lower(e, ot2.targets, ot2.next + 1);
    LowerShift(e, ot.targets, ot.next + 1, ot2.targets, ot2.next + 1, d);
    IfElseOutUnfold(c, t, e, bt, n);
    IfElseOutUnfold(c, t, e, bt2, m);
    IfElseShiftStep(Lower(IfStmt(c, t, Some(e)), bt, n), Lower(IfStmt(c, t, Some(e)), bt2, m),
      c, ot, oe, ot2, oe2, n, m, d);
  }

  lemma IfElseShiftStep(o: Out, o2: Out, c: Expr, ot: Out, oe: Out, ot2: Out, oe2: Out, n: nat, m: nat, d: nat)
    requires o == IfElseOut(c, ot, oe, n) && o2 == IfElseOut(c, ot2, oe2, m)
    requires ot2 == ShiftOut(ot, d) && oe2 == ShiftOut(oe, d) && m == n + d
    ensures o2 == ShiftOut(o, d)
  {
    IfElseOutShift(c, ot, oe, n, d);
  }

  lemma IfElseOutUnfold(c: Expr, t: Stmt, e: Stmt, bt: map<LoopId, LabelId>, n: nat)
    requires FreeBreaks(t) <= bt.Keys && FreeBreaks(e) <= bt.Keys
    ensures Lower(IfStmt(c, t, Some(e)), bt, n)
      == IfElseOut(c, Lower(t, bt, n + 1), Lower(e, Lower(t, bt, n + 1).targets, Lower(t, bt, n + 1).next + 1), n)
  {
    IfElseUnfold(c, t, e, bt, n);
  }

  lemma IfElseOutShift(c: Expr, ot: Out, oe: Out, els: LabelId, d: nat)
    ensures ShiftOut(IfElseOut(c, ot, oe, els), d) == IfElseOut(c, ShiftOut(ot, d), ShiftOut(oe, d), els + d)
  {
    var end := ot.next;
    var pre := ExprCode(c) + [IfZero(c.value, els)];
    ShiftExpr(c, d);
    ShiftConcat(ExprCode(c), [IfZero(c.value, els)], d);
    assert Shift([IfZero(c.value, els)], d) == [IfZero(c.value, els + d)];
    assert Shift([Goto(end)], d) == [Goto(end + d)];
    assert Shift([Nop(els)], d) == [Nop(els + d)];
    assert Shift([Nop(end)], d) == [Nop(end + d)];
    ShiftConcat(pre, ot.code, d);
    ShiftConcat(pre + ot.code, [Goto(end)], d);
    ShiftConcat(pre + ot.code + [Goto(end)], [Nop(els)], d);
    ShiftConcat(pre + ot.code + [Goto(end)] + [Nop(els)], oe.code, d);
    ShiftConcat(pre + ot.code + [Goto(end)] + [Nop(els)] + oe.code, [Nop(end)], d);
  }

  lemma {:induction false} WhileShift(id: LoopId, c: Expr, b: Stmt, bt: map<LoopId, LabelId>, n: nat, bt2: map<LoopId, LabelId>, m: nat, d: nat)
    requires FreeBreaks(b) <= bt.Keys + {id} && bt2 == ShiftMap(bt, d) && m == n + d
    ensures FreeBreaks(b) <= bt2.Keys + {id}
    ensures Lower(WhileStmt(id, c, b), bt2, m) == ShiftOut(Lower(WhileStmt(id, c, b), bt, n), d)
    decreases WhileStmt(id, c, b), 0
  {
    ShiftMapUpdate(bt, id, n + 1, d);
    LowerShift(b, bt[id := n + 1], n + 2, bt2[id := m + 1], m + 2, d);
    WhileUnfold(id, c, b, bt, n);
    WhileUnfold(id, c, b, bt2, m);
    LoopOutShift(c, Lower(b, bt[id := n + 1], n + 2), n, d);
  }

  lemma LoopOutShift(c: Expr, ob: Out, label0: LabelId, d: nat)
    ensures ShiftOut(LoopOut(c, ob, label0), d) == LoopOut(c, ShiftOut(ob, d), label0 + d)
  {
    var pre := [Nop(label0)] + ExprCode(c) + [IfZero(c.value, label0 + 1)];
    ShiftExpr(c, d);
    assert Shift([Nop(label0)], d) == [Nop(label0 + d)];
    assert Shift([IfZero(c.value, label0 + 1)], d) == [IfZero(c.value, label0 + d + 1)];
    assert Shift([Goto(label0)], d) == [Goto(label0 + d)];
    assert Shift([Nop(label0 + 1)], d) == [Nop(label0 + d + 1)];
    ShiftConcat([Nop(label0)], ExprCode(c), d);
    ShiftConcat([Nop(label0)] + ExprCode(c), [IfZero(c.value, label0 + 1)], d);
    ShiftConcat(pre, ob.code, d);
    ShiftConcat(pre + ob.code, [Goto(label0)], d);
    ShiftConcat(pre + ob.code + [Goto(label0)], [Nop(label0 + 1)], d);
  }

  lemma {:induction false} LowerBlockShift(ss: seq<Stmt>, bt: map<LoopId, LabelId>, n: nat, bt2: map<LoopId, LabelId>, m: nat, d: nat)
    requires FreeBreaksSeq(ss) <= bt.Keys && bt2 == ShiftMap(bt, d) && m == n + d
    ensures FreeBreaksSeq(ss) <= bt2.Keys
    ensures LowerBlock(ss, bt2, m) == ShiftOut(LowerBlock(ss, bt, n), d)
    decreases ss, 1
  {
    if ss == [] {
      assert Shift([], d) == [];
    } else {
      var k := |ss| - 1;
      var o1, o2 := LowerBlock(ss[..k], bt, n), LowerBlock(ss[..k], bt2, m);
      LowerBlockShift(ss[..k], bt, n, bt2, m, d);
      LowerShift(ss[k], o1.targets, o1.next, o2.targets, o2.next, d);
      ShiftConcat(o1.code, Lower(ss[k], o1.targets, o1.next).code, d);
    }
  }

  /** A function body lowered from label `n + d` is the one lowered from
      `n` with every label moved by `d`. */
  lemma FunctionBodyRelabel(s: Stmt, n: nat, d: nat)
    requires FreeBreaks(s) == {}
    ensures Lower(s, map[], n + d).code == Shift(Lower(s, map[], n).code, d)
    ensures Lower(s, map[], n + d).next == Lower(s, map[], n).next + d
  {
    assert ShiftMap(map[], d) == map[];
    LowerShift(s, map[], n, map[], n + d, d);
  }
}
