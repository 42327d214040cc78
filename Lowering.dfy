/** The statement lowering as a function of the statement, the break-target
    map and the next fresh label: what one visit of the generator appends,
    and the map and label supply it leaves behind. The generator class in
    module Backend is proved to do exactly this. */
module Lowering {
  import opened Ir
  import opened Ast

  /** The effect of lowering one statement: the instructions appended, the
      break-target map afterwards, and the next label the supply hands out. */
  datatype Out = Out(code: seq<Instr>, targets: map<LoopId, LabelId>, next: nat)

  /** Lowering of `s` with break targets `bt`, fresh labels drawn from `n` up.
      A break may only name a loop that already has a break target. */
  function Lower(s: Stmt, bt: map<LoopId, LabelId>, n: nat): (o: Out)
    requires FreeBreaks(s) <= bt.Keys
    ensures n <= o.next
    ensures bt.Keys <= o.targets.Keys
    decreases s, 1
  {
    match s
    case Block(ss) => LowerBlock(ss, bt, n)
    case ExprStmt(e) => Out(ExprCode(e), bt, n)
    case ReturnStmt(r) =>
      if r.Some? then Out(ExprCode(r.value) + [Return(r.value.value)], bt, n)
      else Out([ReturnVoid], bt, n)
    case IfStmt(c, t, e) => LowerIf(c, t, e, bt, n)
    case WhileStmt(id, c, b) => LowerWhile(id, c, b, bt, n)
    case BreakStmt(l) => Out([Goto(bt[l])], bt, n)
  }

  /** An if statement takes the next label as its join label before its then
      branch draws any; with an else branch, the join label starts the else
      branch instead, and the label after the whole statement (`end`) is
      drawn only once the then branch has drawn its own. */
  function LowerIf(c: Expr, t: Stmt, e: Option<Stmt>, bt: map<LoopId, LabelId>, n: nat): (o: Out)
    requires FreeBreaks(IfStmt(c, t, e)) <= bt.Keys
    ensures n <= o.next
    ensures bt.Keys <= o.targets.Keys
    decreases IfStmt(c, t, e), 0
  {
    var join := n;
    var ot := Lower(t, bt, n + 1);
    if e.None? then
      Out(IfThenCode(c, ot.code, join), ot.targets, ot.next)
    else
      var els, end := join, ot.next;
      var oe := Lower(e.value, ot.targets, end + 1);
      Out(IfElseCode(c, ot.code, oe.code, els, end), oe.targets, oe.next)
  }

  /** A loop draws its head and exit labels, then records the exit label as
      the loop's break target before its body is lowered. */
  function LowerWhile(id: LoopId, c: Expr, b: Stmt, bt: map<LoopId, LabelId>, n: nat): (o: Out)
    requires FreeBreaks(WhileStmt(id, c, b)) <= bt.Keys
    ensures n <= o.next
    ensures bt.Keys <= o.targets.Keys
    decreases WhileStmt(id, c, b), 0
  {
    var label0, label1 := n, n + 1;
    var ob := Lower(b, bt[id := label1], n + 2);
    Out(LoopCode(c, ob.code, label0), ob.targets, ob.next)
  }

  /** `cond; if cond == 0 goto join; then; join:` */
  function IfThenCode(c: Expr, tc: seq<Instr>, join: LabelId): seq<Instr> {
    ExprCode(c) + [IfZero(c.value, join)] + tc + [Nop(join)]
  }

  /** `cond; if cond == 0 goto els; then; goto end; els:; else; end:` */
  function IfElseCode(c: Expr, tc: seq<Instr>, ec: seq<Instr>, els: LabelId, end: LabelId): seq<Instr> {
    ExprCode(c) + [IfZero(c.value, els)] + tc + [Goto(end)] + [Nop(els)] + ec + [Nop(end)]
  }

  /** `label0:; cond; if cond == 0 goto label0 + 1; body; goto label0; label0 + 1:` */
  function LoopCode(c: Expr, bc: seq<Instr>, label0: LabelId): seq<Instr> {
    [Nop(label0)] + ExprCode(c) + [IfZero(c.value, label0 + 1)] + bc + [Goto(label0)] + [Nop(label0 + 1)]
  }

  /** Lowering of a block: its statements one after another, in source order,
      each starting from the map and label supply the previous one left. */
  function LowerBlock(ss: seq<Stmt>, bt: map<LoopId, LabelId>, n: nat): (o: Out)
    requires FreeBreaksSeq(ss) <= bt.Keys
    ensures n <= o.next
    ensures bt.Keys <= o.targets.Keys
  {
    if ss == [] then Out([], bt, n)
    else
      var k := |ss| - 1;
      var o1 := LowerBlock(ss[..k], bt, n);
      var o2 := Lower(ss[k], o1.targets, o1.next);
      Out(o1.code + o2.code, o2.targets, o2.next)
  }

  /** What lowering keeps invariant, for a statement whose loops are `loops`,
      given break targets `bt` whose labels are among `given`: its labels
      are fresh and placed once (Fresh), its jumps and the break targets it
      leaves behind stay within the labels it places and `given` (Jumps),
      and the break-target map gains exactly `loops` (Keeps). */
  ghost predicate Sound(o: Out, bt: map<LoopId, LabelId>, given: set<LabelId>, n: nat, loops: set<LoopId>) {
    Fresh(o, n) && Jumps(o, given) && Keeps(o, bt, loops)
  }

  /** Every break target in `bt` is one of `labels`. */
  ghost predicate Covers(bt: map<LoopId, LabelId>, labels: set<LabelId>) {
    forall k :: k in bt ==> bt[k] in labels
  }

  /** The labels placed are drawn from [n, o.next), each exactly once. */
  ghost predicate Fresh(o: Out, n: nat) {
    && n <= o.next
    && (forall l :: l in Placed(o.code) ==> n <= l < o.next)
    && PlacedOnce(o.code)
  }

  /** Each jump, and each break target left in the map, is a label the code
      places or one of the `given` labels. */
  ghost predicate Jumps(o: Out, given: set<LabelId>) {
    Targets(o.code) <= Placed(o.code) + given && Covers(o.targets, given + Placed(o.code))
  }

  /** The map gains exactly `loops`; the entry of any other loop is unchanged. */
  ghost predicate Keeps(o: Out, bt: map<LoopId, LabelId>, loops: set<LoopId>) {
    && o.targets.Keys == bt.Keys + loops
    && (forall k :: k in bt && k !in loops ==> o.targets[k] == bt[k])
  }

  lemma {:induction false} LowerSound(s: Stmt, bt: map<LoopId, LabelId>, given: set<LabelId>, n: nat)
    requires FreeBreaks(s) <= bt.Keys && Covers(bt, given)
    ensures Sound(Lower(s, bt, n), bt, given, n, LoopIds(s))
    decreases s, 1
  {
    match s
    case Block(ss) => LowerBlockSound(ss, bt, given, n);
    case ExprStmt(e) =>
    case ReturnStmt(r) =>
      if r.Some? {
        Single(Return(r.value.value));
        Join(ExprCode(r.value), [Return(r.value.value)]);
      } else {
        Single(ReturnVoid);
      }
    case IfStmt(c, t, e) =>
      if e.None? { IfThenSound(c, t, bt, given, n); } else { IfElseSound(c, t, e.value, bt, given, n); }
    case WhileStmt(id, c, b) => WhileSound(id, c, b, bt, given, n);
    case BreakStmt(l) => Single(Goto(bt[l]));
  }

  /** The labels `s` places are fresh, and each is placed once. */
  lemma LowerFresh(s: Stmt, bt: map<LoopId, LabelId>, n: nat)
    requires FreeBreaks(s) <= bt.Keys
    ensures Fresh(Lower(s, bt, n), n)
  {
    LowerSound(s, bt, bt.Values, n);
  }

  /** Lowering `s` adds break targets for the loops of `s` only. */
  lemma LowerKeeps(s: Stmt, bt: map<LoopId, LabelId>, n: nat)
    requires FreeBreaks(s) <= bt.Keys
    ensures Keeps(Lower(s, bt, n), bt, LoopIds(s))
  {
    LowerSound(s, bt, bt.Values, n);
  }

  lemma LowerBlockKeeps(ss: seq<Stmt>, bt: map<LoopId, LabelId>, n: nat)
    requires FreeBreaksSeq(ss) <= bt.Keys
    ensures Keeps(LowerBlock(ss, bt, n), bt, LoopIdsSeq(ss))
  {
    LowerBlockSound(ss, bt, bt.Values, n);
  }

  lemma {:induction false} IfThenSound(c: Expr, t: Stmt, bt: map<LoopId, LabelId>, given: set<LabelId>, n: nat)
    requires FreeBreaks(t) <= bt.Keys && Covers(bt, given)
    ensures Sound(Lower(IfStmt(c, t, None), bt, n), bt, given, n, LoopIds(t))
    decreases IfStmt(c, t, None), 0
  {
    var ot := Lower(t, bt, n + 1);
    LowerSound(t, bt, given, n + 1);
    IfThenUnfold(c, t, bt, n);
    IfThenStep(Lower(IfStmt(c, t, None), bt, n), ot, c, bt, given, n, LoopIds(t));
  }

  /** An if without else, in terms of its then branch: the layout with `join` = n. */
  lemma IfThenUnfold(c: Expr, t: Stmt, bt: map<LoopId, LabelId>, n: nat)
    requires FreeBreaks(t) <= bt.Keys
    ensures var ot := Lower(t, bt, n + 1);
      Lower(IfStmt(c, t, None), bt, n) == Out(IfThenCode(c, ot.code, n), ot.targets, ot.next)
  {
  }

  /** The invariant carries over an if without else from its branch. */
  lemma IfThenStep(o: Out, ot: Out, c: Expr, bt: map<LoopId, LabelId>, given: set<LabelId>, n: nat, lt: set<LoopId>)
    requires Sound(ot, bt, given, n + 1, lt)
    requires o == Out(IfThenCode(c, ot.code, n), ot.targets, ot.next)
    ensures Sound(o, bt, given, n, lt)
  {
    IfThenLayout(c, ot.code, n, ot.next);
  }

  /** The labels of `cond, if zero goto join, then, join`. */
  lemma IfThenLayout(c: Expr, tc: seq<Instr>, join: LabelId, hi: nat)
    requires PlacedOnce(tc)
    requires forall l :: l in Placed(tc) ==> join < l < hi
    ensures var code := IfThenCode(c, tc, join);
      && Placed(code) == Placed(tc) + {join}
      && Targets(code) == {join} + Targets(tc)
      && PlacedOnce(code)
  {
    var pre := ExprCode(c) + [IfZero(c.value, join)];
    Branch(c, join);
    Single(Nop(join));
    Join(pre, tc);
    Join(pre + tc, [Nop(join)]);
  }

  lemma {:induction false} IfElseSound(c: Expr, t: Stmt, e: Stmt, bt: map<LoopId, LabelId>, given: set<LabelId>, n: nat)
    requires FreeBreaks(t) + FreeBreaks(e) <= bt.Keys && Covers(bt, given)
    ensures Sound(Lower(IfStmt(c, t, Some(e)), bt, n), bt, given, n, LoopIds(t) + LoopIds(e))
    decreases IfStmt(c, t, Some(e)), 0
  {
    var ot := Lower(t, bt, n + 1);
    LowerSound(t, bt, given, n + 1);
    LowerSound(e, ot.targets, given + Placed(ot.code), ot.next + 1);
    IfElseFrom(c, t, e, bt, given, n);
  }

  /** The invariant of an if-else from those of its branches, stated on the
      lowerings themselves. */
  lemma IfElseFrom(c: Expr, t: Stmt, e: Stmt, bt: map<LoopId, LabelId>, given: set<LabelId>, n: nat)
    requires FreeBreaks(t) + FreeBreaks(e) <= bt.Keys
    requires var ot := Lower(t, bt, n + 1);
      && Sound(ot, bt, given, n + 1, LoopIds(t))
      && Sound(Lower(e, ot.targets, ot.next + 1), ot.targets, given + Placed(ot.code), ot.next + 1, LoopIds(e))
    ensures Sound(Lower(IfStmt(c, t, Some(e)), bt, n), bt, given, n, LoopIds(t) + LoopIds(e))
  {
    IfElseUnfold(c, t, e, bt, n);
    IfElseStep(Lower(IfStmt(c, t, Some(e)), bt, n), Lower(t, bt, n + 1),
               Lower(e, Lower(t, bt, n + 1).targets, Lower(t, bt, n + 1).next + 1), c, bt, given, n, LoopIds(t), LoopIds(e));
  }

  /** An if with else, in terms of its branches: `els` = n, `end` drawn after
      the then branch, and the else branch lowered from the map and supply the
      then branch left. */
  lemma IfElseUnfold(c: Expr, t: Stmt, e: Stmt, bt: map<LoopId, LabelId>, n: nat)
    requires FreeBreaks(t) + FreeBreaks(e) <= bt.Keys
    ensures var ot := Lower(t, bt, n + 1); var oe := Lower(e, ot.targets, ot.next + 1);
      Lower(IfStmt(c, t, Some(e)), bt, n) == Out(IfElseCode(c, ot.code, oe.code, n, ot.next), oe.targets, oe.next)
  {
  }

  /** The labels of `cond, if zero goto els, then, goto end, els, else, end`. */
  lemma IfElseLayout(c: Expr, tc: seq<Instr>, ec: seq<Instr>, els: LabelId, end: LabelId, hi: nat)
    requires PlacedOnce(tc) && PlacedOnce(ec)
    requires els < end
    requires forall l :: l in Placed(tc) ==> els < l < end
    requires forall l :: l in Placed(ec) ==> end < l < hi
    ensures var code := IfElseCode(c, tc, ec, els, end);
      && Placed(code) == Placed(tc) + {els} + Placed(ec) + {end}
      && Targets(code) == {els} + Targets(tc) + {end} + Targets(ec)
      && PlacedOnce(code)
  {
    var pre := ExprCode(c) + [IfZero(c.value, els)];
    Branch(c, els);
    Single(Goto(end));
    Single(Nop(els));
    Single(Nop(end));
    Join(pre, tc);
    Join(pre + tc, [Goto(end)]);
    Join(pre + tc + [Goto(end)], [Nop(els)]);
    Join(pre + tc + [Goto(end)] + [Nop(els)], ec);
    Join(pre + tc + [Goto(end)] + [Nop(els)] + ec, [Nop(end)]);
  }

  /** The code before a branch: the condition's code and the jump taken when it is zero. */
  lemma Branch(c: Expr, l: LabelId)
    ensures var pre := ExprCode(c) + [IfZero(c.value, l)];
      Placed(pre) == {} && Targets(pre) == {l} && PlacedOnce(pre)
  {
    Single(IfZero(c.value, l));
    Join(ExprCode(c), [IfZero(c.value, l)]);
  }

  /** The invariant carries over an if-else from its two branches. */
  lemma IfElseStep(o: Out, ot: Out, oe: Out, c: Expr, bt: map<LoopId, LabelId>, given: set<LabelId>, n: nat, lt: set<LoopId>, le: set<LoopId>)
    requires Sound(ot, bt, given, n + 1, lt) && Sound(oe, ot.targets, given + Placed(ot.code), ot.next + 1, le)
    requires o == Out(IfElseCode(c, ot.code, oe.code, n, ot.next), oe.targets, oe.next)
    ensures Sound(o, bt, given, n, lt + le)
  {
    IfElseLayout(c, ot.code, oe.code, n, ot.next, oe.next);
    IfElseFresh(o, ot, oe, n);
    IfElseJumps(o, ot, oe, given);
    IfElseKeeps(o, ot, oe, bt, lt, le);
  }

  lemma IfElseFresh(o: Out, ot: Out, oe: Out, n: nat)
    requires Fresh(ot, n + 1) && Fresh(oe, ot.next + 1)
    requires Placed(o.code) == Placed(ot.code) + {n} + Placed(oe.code) + {ot.next}
    requires PlacedOnce(o.code) && o.next == oe.next
    ensures Fresh(o, n)
  {
  }

  lemma IfElseJumps(o: Out, ot: Out, oe: Out, given: set<LabelId>)
    requires Jumps(ot, given) && Jumps(oe, given + Placed(ot.code))
    requires Placed(ot.code) + Placed(oe.code) <= Placed(o.code)
    requires Targets(o.code) <= Targets(ot.code) + Targets(oe.code) + Placed(o.code)
    requires o.targets == oe.targets
    ensures Jumps(o, given)
  {
  }

  lemma IfElseKeeps(o: Out, ot: Out, oe: Out, bt: map<LoopId, LabelId>, lt: set<LoopId>, le: set<LoopId>)
    requires Keeps(ot, bt, lt) && Keeps(oe, ot.targets, le)
    requires o.targets == oe.targets
    ensures Keeps(o, bt, lt + le)
  {
  }

  lemma {:induction false} WhileSound(id: LoopId, c: Expr, b: Stmt, bt: map<LoopId, LabelId>, given: set<LabelId>, n: nat)
    requires FreeBreaks(b) <= bt.Keys + {id} && Covers(bt, given)
    ensures Sound(Lower(WhileStmt(id, c, b), bt, n), bt, given, n, {id} + LoopIds(b))
    decreases WhileStmt(id, c, b), 0
  {
    var ob := Lower(b, bt[id := n + 1], n + 2);
    LowerSound(b, bt[id := n + 1], given + {n + 1}, n + 2);
    WhileUnfold(id, c, b, bt, n);
    WhileStep(Lower(WhileStmt(id, c, b), bt, n), ob, id, c, bt, given, n, LoopIds(b));
  }

  /** A loop, in terms of its body: head label n, exit label n + 1, and the
      body lowered with the exit label as the loop's break target. */
  lemma WhileUnfold(id: LoopId, c: Expr, b: Stmt, bt: map<LoopId, LabelId>, n: nat)
    requires FreeBreaks(b) <= bt.Keys + {id}
    ensures var ob := Lower(b, bt[id := n + 1], n + 2);
      Lower(WhileStmt(id, c, b), bt, n) == Out(LoopCode(c, ob.code, n), ob.targets, ob.next)
  {
  }

  /** The labels of `label0, cond, if zero goto label1, body, goto label0, label1`. */
  lemma WhileLayout(c: Expr, bc: seq<Instr>, label0: LabelId, hi: nat)
    requires PlacedOnce(bc)
    requires forall l :: l in Placed(bc) ==> label0 + 1 < l < hi
    ensures var code := LoopCode(c, bc, label0);
      && Placed(code) == {label0} + Placed(bc) + {label0 + 1}
      && Targets(code) == {label0 + 1} + Targets(bc) + {label0}
      && PlacedOnce(code)
  {
    var label1 := label0 + 1;
    Single(Nop(label0));
    Single(IfZero(c.value, label1));
    Single(Goto(label0));
    Single(Nop(label1));
    Join([Nop(label0)], ExprCode(c));
    Join([Nop(label0)] + ExprCode(c), [IfZero(c.value, label1)]);
    var pre := [Nop(label0)] + ExprCode(c) + [IfZero(c.value, label1)];
    Join(pre, bc);
    Join(pre + bc, [Goto(label0)]);
    Join(pre + bc + [Goto(label0)], [Nop(label1)]);
  }

  /** The invariant carries over a loop from its body. */
  lemma WhileStep(o: Out, ob: Out, id: LoopId, c: Expr, bt: map<LoopId, LabelId>, given: set<LabelId>, n: nat, lb: set<LoopId>)
    requires Sound(ob, bt[id := n + 1], given + {n + 1}, n + 2, lb)
    requires o == Out(LoopCode(c, ob.code, n), ob.targets, ob.next)
    ensures Sound(o, bt, given, n, {id} + lb)
  {
    WhileLayout(c, ob.code, n, ob.next);
  }

  lemma {:induction false} LowerBlockSound(ss: seq<Stmt>, bt: map<LoopId, LabelId>, given: set<LabelId>, n: nat)
    requires FreeBreaksSeq(ss) <= bt.Keys && Covers(bt, given)
    ensures Sound(LowerBlock(ss, bt, n), bt, given, n, LoopIdsSeq(ss))
    decreases ss, 1
  {
    if ss != [] {
      var k := |ss| - 1;
      var o1 := LowerBlock(ss[..k], bt, n);
      LowerBlockSound(ss[..k], bt, given, n);
      var o2 := Lower(ss[k], o1.targets, o1.next);
      LowerSound(ss[k], o1.targets, given + Placed(o1.code), o1.next);
      Join(o1.code, o2.code);
    }
  }
}
