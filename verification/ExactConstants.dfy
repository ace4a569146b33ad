/** The exact domain of constants: two constants meet only when they are equal, and a fold that is right about a small machine. */
module ExactConstants {
  import opened Wrappers
  import opened Program
  import opened Iteration
  import opened Constants
  import opened ConstantPropagation

  const X: Var := 0
  const Y: Var := 1
  const T: Var := 2
  const J: Var := 3
  const K: Var := 4

  /** Operation 0 writes the literal five, operation 1 copies its operand, operation 2 gives five when either of its
      operands is five and operation 3 when both are, as a bitwise "or" and "and" do with all bits set. What operation 4
      writes is not known. */
  function Literal(d: Var): Inst { Inst(0, [], [d], false, false, true, NoTransfer) }

  function Copying(d: Var, s: Var): Inst { Inst(1, [s], [d], false, false, true, NoTransfer) }

  function Either(d: Var, a: Var, b: Var): Inst { Inst(2, [a, b], [d], false, false, true, NoTransfer) }

  function Both(d: Var, a: Var, b: Var): Inst { Inst(3, [a, b], [d], false, false, true, NoTransfer) }

  function Forgetting(d: Var): Inst { Inst(4, [], [d], false, false, true, NoTransfer) }

  predicate IsFive(known: map<Var, Value>, v: Var) { v in known && known[v] == 5 }

  function FoldExact(inst: Inst, known: map<Var, Value>): Option<(Var, Value)> {
    if inst.defs == [] then None
    else if inst.op == 0 then Some((inst.defs[0], 5))
    else if inst.op == 1 && |inst.uses| == 1 && inst.uses[0] in known then Some((inst.defs[0], known[inst.uses[0]]))
    else if inst.op == 2 && |inst.uses| == 2 && (IsFive(known, inst.uses[0]) || IsFive(known, inst.uses[1])) then
      Some((inst.defs[0], 5))
    else if inst.op == 3 && |inst.uses| == 2 && IsFive(known, inst.uses[0]) && IsFive(known, inst.uses[1]) then
      Some((inst.defs[0], 5))
    else None
  }

  function MeetExact(a: Value, b: Value): Option<Value> { if a == b then Some(a) else None }

  function Exact(): Domain<Value> {
    Domain((inst, known) => FoldExact(inst, known), (a, b) => MeetExact(a, b))
  }

  function ExactLaws(): Laws<Value> { Laws((a: Value, b: Value) => a == b, (a: Value) => 0, 0) }

  function Machine(op: int, env: int, inputs: seq<Value>, j: nat): Value {
    if op == 0 then 5
    else if op == 1 && inputs != [] then inputs[0]
    else if op == 2 && |inputs| == 2 && (inputs[0] == 5 || inputs[1] == 5) then 5
    else if op == 3 && |inputs| == 2 && inputs[0] == 5 && inputs[1] == 5 then 5
    else env
  }

  function Same(c: Value, x: Value): bool { c == x }

  lemma ExactMonotone(inst: Inst, k: map<Var, Value>, l: map<Var, Value>)
    requires KnowsLess(ExactLaws(), k, l) && FoldExact(inst, l).Some?
    ensures FoldExact(inst, k) == FoldExact(inst, l)
  {
    forall v | v in l ensures v in k && k[v] == l[v] {
      assert ExactLaws().weaker(k[v], l[v]);
    }
  }

  lemma ExactLawful()
    ensures LawfulDomain(Exact(), ExactLaws())
  {
    var dom, laws := Exact(), ExactLaws();
    forall inst, k, l | KnowsLess(laws, k, l) && dom.fold(inst, l).Some? ensures dom.fold(inst, k) == dom.fold(inst, l) {
      ExactMonotone(inst, k, l);
    }
  }

  function Meant(): Meaning<Value> { (c, x) => Same(c, x) }

  function MachineSemantics(): Semantics { (op, env, inputs, j: nat) => Machine(op, env, inputs, j) }

  /** The fold is right about the machine. */
  lemma FoldRight(inst: Inst)
    requires inst.transfer.NoTransfer? && |inst.defs| == 1
    ensures FoldSound(Exact(), Meant(), MachineSemantics(), inst)
  {
    forall known: map<Var, Value>, s, env | (forall v :: v in known ==> Meant()(known[v], Read(s, v))) && FoldExact(inst, known).Some?
      ensures FoldExact(inst, known).value.1 == Read(ExecInst(MachineSemantics(), inst, s, env), inst.defs[0])
    {
      FoldRightOn(inst, known, s, env);
    }
  }

  lemma FoldRightOn(inst: Inst, known: map<Var, Value>, s: Store, env: int)
    requires inst.transfer.NoTransfer? && |inst.defs| == 1 && FoldExact(inst, known).Some?
    requires forall v :: v in known ==> Same(known[v], Read(s, v))
    ensures FoldExact(inst, known).value.1 == Read(ExecInst(MachineSemantics(), inst, s, env), inst.defs[0])
  {
    var results := Results(MachineSemantics(), inst, s, env);
    assert results[0] == Machine(inst.op, env, ReadAll(s, inst.uses), 0);
    AssignOnce(s, inst.defs, results, 0);
  }
}
