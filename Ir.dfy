/** The flat intermediate representation the statement lowering appends to:
    labels (no-op instructions that serve as jump targets), conditional and
    unconditional jumps, returns, and opaque instructions that only
    expression lowering produces. */
module Ir {

  /** Identity of a label. Labels are compared by identity, never by position. */
  type LabelId = nat

  /** An operand produced by expression lowering: a local or an integer constant. */
  datatype Value = Local(name: nat) | Const(k: int)

  datatype Instr =
    | Nop(lbl: LabelId)                  // a label: does nothing, marks a jump target
    | IfZero(cond: Value, target: LabelId) // if cond == 0 goto target
    | Goto(target: LabelId)
    | Return(result: Value)
    | ReturnVoid
    | Opaque(op: nat)                    // anything expression lowering emits

  predicate IsJump(i: Instr) {
    i.IfZero? || i.Goto?
  }

  /** The labels placed in `code`. */
  function Placed(code: seq<Instr>): set<LabelId> {
    set i | 0 <= i < |code| && code[i].Nop? :: code[i].lbl
  }

  /** The labels that jumps in `code` refer to. */
  function Targets(code: seq<Instr>): set<LabelId> {
    set i | 0 <= i < |code| && IsJump(code[i]) :: code[i].target
  }

  /** No label is placed twice. */
  predicate PlacedOnce(code: seq<Instr>) {
    forall i, j :: 0 <= i < j < |code| && code[i].Nop? && code[j].Nop? ==> code[i].lbl != code[j].lbl
  }

  /** Every jump in `code` lands on a label that `code` places. */
  predicate JumpsClosed(code: seq<Instr>) {
    Targets(code) <= Placed(code)
  }

  /** The label an instruction mentions, placed or targeted, if any. */
  function Mentions(i: Instr): set<LabelId> {
    match i
    case Nop(l) => {l}
    case IfZero(_, l) => {l}
    case Goto(l) => {l}
    case _ => {}
  }

  /** A label identity strictly above every label `code` mentions: where a
      fresh-label supply for a function body that already holds `code` may start. */
  function Bound(code: seq<Instr>): (b: nat)
    ensures forall l :: l in Placed(code) + Targets(code) ==> l < b
  {
    if code == [] then 0
    else
      var k := |code| - 1;
      var b0 := Bound(code[..k]);
      var m := match code[k]
        case Nop(l) => l + 1
        case IfZero(_, l) => l + 1
        case Goto(l) => l + 1
        case _ => 0;
      assert Placed(code) + Targets(code) <= Placed(code[..k]) + Targets(code[..k]) + Mentions(code[k]) by {
        forall l | l in Placed(code) + Targets(code)
          ensures l in Placed(code[..k]) + Targets(code[..k]) + Mentions(code[k])
        {
          var i :| 0 <= i < |code| && ((code[i].Nop? && code[i].lbl == l) || (IsJump(code[i]) && code[i].target == l));
          if i < k {
            assert code[..k][i] == code[i];
          }
        }
      }
      if b0 < m then m else b0
  }

  /** What a single instruction places and targets. */
  lemma Single(i: Instr)
    ensures Placed([i]) == (if i.Nop? then {i.lbl} else {})
    ensures Targets([i]) == (if IsJump(i) then {i.target} else {})
    ensures PlacedOnce([i])
  {
    if i.Nop? { assert [i][0].lbl in Placed([i]); }
    if IsJump(i) { assert [i][0].target in Targets([i]); }
  }

  lemma PlacedConcat(a: seq<Instr>, b: seq<Instr>)
    ensures Placed(a + b) == Placed(a) + Placed(b)
  {
    var c := a + b;
    forall l | l in Placed(c) ensures l in Placed(a) + Placed(b) {
      var i :| 0 <= i < |c| && c[i].Nop? && c[i].lbl == l;
      if i < |a| { assert a[i] == c[i]; } else { assert b[i - |a|] == c[i]; }
    }
    forall l | l in Placed(a) ensures l in Placed(c) {
      var i :| 0 <= i < |a| && a[i].Nop? && a[i].lbl == l;
      assert c[i] == a[i];
    }
    forall l | l in Placed(b) ensures l in Placed(c) {
      var i :| 0 <= i < |b| && b[i].Nop? && b[i].lbl == l;
      assert c[|a| + i] == b[i];
    }
  }

  lemma TargetsConcat(a: seq<Instr>, b: seq<Instr>)
    ensures Targets(a + b) == Targets(a) + Targets(b)
  {
    var c := a + b;
    forall l | l in Targets(c) ensures l in Targets(a) + Targets(b) {
      var i :| 0 <= i < |c| && IsJump(c[i]) && c[i].target == l;
      if i < |a| { assert a[i] == c[i]; } else { assert b[i - |a|] == c[i]; }
    }
    forall l | l in Targets(a) ensures l in Targets(c) {
      var i :| 0 <= i < |a| && IsJump(a[i]) && a[i].target == l;
      assert c[i] == a[i];
    }
    forall l | l in Targets(b) ensures l in Targets(c) {
      var i :| 0 <= i < |b| && IsJump(b[i]) && b[i].target == l;
      assert c[|a| + i] == b[i];
    }
  }

  /** Two pieces that each place their labels once, and share no label, place
      every label once when concatenated. */
  lemma PlacedOnceConcat(a: seq<Instr>, b: seq<Instr>)
    requires PlacedOnce(a) && PlacedOnce(b)
    requires Placed(a) !! Placed(b)
    ensures PlacedOnce(a + b)
  {
    var c := a + b;
    forall i, j | 0 <= i < j < |c| && c[i].Nop? && c[j].Nop?
      ensures c[i].lbl != c[j].lbl
    {
      if j < |a| {
        assert c[i] == a[i] && c[j] == a[j];
      } else if i >= |a| {
        assert c[i] == b[i - |a|] && c[j] == b[j - |a|];
      } else {
        assert c[i] == a[i] && c[j] == b[j - |a|];
        assert c[i].lbl in Placed(a);
        assert c[j].lbl in Placed(b);
      }
    }
  }

  /** Concatenating two pieces that share no label: what the result places and
      targets, and that it still places each label once. */
  lemma Join(a: seq<Instr>, b: seq<Instr>)
    requires PlacedOnce(a) && PlacedOnce(b)
    requires Placed(a) !! Placed(b)
    ensures PlacedOnce(a + b)
    ensures Placed(a + b) == Placed(a) + Placed(b)
    ensures Targets(a + b) == Targets(a) + Targets(b)
  {
    PlacedOnceConcat(a, b);
    PlacedConcat(a, b);
    TargetsConcat(a, b);
  }

  lemma AppendAssoc(x: seq<Instr>, y: seq<Instr>, z: seq<Instr>)
    ensures x + y + z == x + (y + z)
  {
  }

  /** Label `l` is placed at position `i` of `code` and nowhere else, so a
      jump to `l` lands at `i`. */
  predicate PlacedOnlyAt(code: seq<Instr>, l: LabelId, i: nat) {
    i < |code| && code[i] == Nop(l) &&
    forall j :: 0 <= j < |code| && code[j] == Nop(l) ==> j == i
  }

  lemma UniquePosition(code: seq<Instr>, i: nat)
    requires PlacedOnce(code)
    requires i < |code| && code[i].Nop?
    ensures PlacedOnlyAt(code, code[i].lbl, i)
  {
  }

  /** Every jump lands on exactly one position of `code`. */
  predicate JumpsResolve(code: seq<Instr>) {
    forall l :: l in Targets(code) ==> exists i :: 0 <= i < |code| && PlacedOnlyAt(code, l, i)
  }

  lemma ClosedResolves(code: seq<Instr>)
    requires PlacedOnce(code) && JumpsClosed(code)
    ensures JumpsResolve(code)
  {
    forall l | l in Targets(code) ensures exists i :: 0 <= i < |code| && PlacedOnlyAt(code, l, i) {
      var i :| 0 <= i < |code| && code[i].Nop? && code[i].lbl == l;
      UniquePosition(code, i);
    }
  }
}
