/** The program model every analysis shares: blocks of instructions, typed edges, and runs that move one
    instruction at a time.

    An unwind edge out of a block that holds a throwing instruction leaves immediately before each of its
    throwing instructions. Every other edge leaves after the last instruction of its block. */
module Program {
  import opened Wrappers
  import opened EdgeKinds

  type Var = int
  type Value = int
  type BlockId = nat
  type EdgeId = nat

  function Elems<T>(s: seq<T>): set<T> { set x | x in s }

  lemma TakeNext<T>(s: seq<T>, k: nat)
    requires k < |s|
    ensures s[..k + 1] == s[..k] + [s[k]]
  {
  }

  lemma TakeAll<T>(s: seq<T>)
    ensures s[..|s|] == s
  {
  }

  lemma HasMember(s: set<Var>)
    requires s != {}
    ensures exists v :: v in s
  {
    assert (forall v :: v !in s) ==> s == {};
  }

  datatype Edge = Edge(source: BlockId, target: BlockId, kind: EdgeKind)

  /** What a copy or alias instruction promises about the values it moves. */
  datatype Transfer = NoTransfer | Copy | Aliases(definitions: seq<Var>, sources: seq<Var>)

  datatype Inst = Inst(op: int, uses: seq<Var>, defs: seq<Var>, mayUnwind: bool, effectful: bool, pure: bool,
                       transfer: Transfer)
  {
    /** An empty or arity-mismatched alias set is ignored. */
    predicate IsTransfer() {
      match transfer
      case NoTransfer => false
      case Copy => true
      case Aliases(definitions, sources) => definitions != [] && |definitions| == |sources|
    }

    function Targets(): seq<Var> {
      if IsTransfer() && transfer.Aliases? then transfer.definitions else defs
    }

    function Sources(): seq<Var> {
      if IsTransfer() && transfer.Aliases? then transfer.sources else uses
    }

    /** The contract of a transfer: it writes exactly its definitions, each once, reads its sources, and neither
        throws nor has an effect. */
    ghost predicate Ok() {
      && (transfer.Copy? ==> |defs| == 1 && |uses| == 1)
      && (transfer.Aliases? ==> Elems(transfer.sources) <= Elems(uses))
      && (IsTransfer() ==>
            && !mayUnwind && !effectful
            && (forall i, j :: 0 <= i < j < |Targets()| ==> Targets()[i] != Targets()[j])
            && (forall v :: v in defs <==> v in Targets())
            && (forall v :: v in Sources() ==> v in uses))
    }
  }

  /** A rooted graph of blocks over the slots `0..bound`. Removed identities are absent from the maps. */
  datatype Cfg = Cfg(entry: BlockId, bound: nat, blocks: map<BlockId, seq<Inst>>, edges: map<EdgeId, Edge>,
                     out: map<BlockId, seq<EdgeId>>, inc: map<BlockId, seq<EdgeId>>)
  {
    ghost predicate WellFormed() {
      && entry in blocks && (forall b :: b in blocks ==> b < bound)
      && out.Keys == blocks.Keys && inc.Keys == blocks.Keys
      && (forall e :: e in edges ==>
            && edges[e].source in blocks && edges[e].target in blocks
            && e in out[edges[e].source] && e in inc[edges[e].target])
      && (forall b, i :: b in out && 0 <= i < |out[b]| ==> out[b][i] in edges && edges[out[b][i]].source == b)
      && (forall b, i :: b in inc && 0 <= i < |inc[b]| ==> inc[b][i] in edges && edges[inc[b][i]].target == b)
    }

    /** Every instruction keeps the contract of its transfer. */
    ghost predicate Contracts() {
      forall b, i :: b in blocks && 0 <= i < |blocks[b]| ==> blocks[b][i].Ok()
    }
  }

  function Insts(p: Cfg, b: BlockId): seq<Inst> {
    if b in p.blocks then p.blocks[b] else []
  }

  predicate Throws(p: Cfg, b: BlockId) {
    exists i :: 0 <= i < |Insts(p, b)| && Insts(p, b)[i].mayUnwind
  }

  predicate IsUnwind(e: Edge) {
    e.kind == ExceptionUnwind
  }

  /** Whether `e` leaves its source before a throwing instruction. */
  predicate Departs(p: Cfg, e: Edge) {
    IsUnwind(e) && Throws(p, e.source)
  }

  /** A position: just before instruction `idx`, or after the last one when `idx` is the block's length. */
  datatype Pos = Pos(block: BlockId, idx: nat)

  predicate InRange(p: Cfg, a: Pos) {
    a.block in p.blocks && a.idx <= |Insts(p, a.block)|
  }

  predicate AtInst(p: Cfg, a: Pos) {
    a.idx < |Insts(p, a.block)|
  }

  function InstAt(p: Cfg, a: Pos): Inst
    requires AtInst(p, a)
  {
    Insts(p, a.block)[a.idx]
  }

  function After(a: Pos): Pos { Pos(a.block, a.idx + 1) }

  /** The instruction at `a` executes to completion. */
  predicate Execs(p: Cfg, a: Pos, b: Pos) {
    AtInst(p, a) && b == After(a)
  }

  predicate LeavesVia(p: Cfg, a: Pos, e: Edge) {
    && e.source == a.block
    && if Departs(p, e) then AtInst(p, a) && InstAt(p, a).mayUnwind else a.idx == |Insts(p, a.block)|
  }

  /** Control takes some edge from `a` to the start of block `b.block`. */
  ghost predicate Crosses(p: Cfg, a: Pos, b: Pos) {
    b.idx == 0 && exists e :: e in p.edges && LeavesVia(p, a, p.edges[e]) && p.edges[e].target == b.block
  }

  ghost predicate Next(p: Cfg, a: Pos, b: Pos) {
    Execs(p, a, b) || Crosses(p, a, b)
  }

  /** Where an edge is taken, told in the graph itself. An unwind edge out of a block that holds a throwing instruction is
      taken just before any such instruction, and at no other place; every other edge is taken at the end of its block. */
  lemma LeavesExact(p: Cfg, a: Pos, e: Edge)
    requires a.block in p.blocks
    ensures var insts := p.blocks[a.block];
            LeavesVia(p, a, e) <==>
              && e.source == a.block
              && if e.kind == ExceptionUnwind && exists i :: 0 <= i < |insts| && insts[i].mayUnwind then
                   a.idx < |insts| && insts[a.idx].mayUnwind
                 else a.idx == |insts|
  {
    var insts := p.blocks[a.block];
    if exists i :: 0 <= i < |insts| && insts[i].mayUnwind {
      var i :| 0 <= i < |insts| && insts[i].mayUnwind;
      assert Insts(p, a.block)[i].mayUnwind;
    }
  }

  /** Control moves over an instruction, or along an edge to the start of the edge's target. */
  lemma NextExact(p: Cfg, a: Pos, b: Pos)
    requires a.block in p.blocks
    ensures Next(p, a, b) <==>
              || (a.idx < |p.blocks[a.block]| && b == Pos(a.block, a.idx + 1))
              || (b.idx == 0 && exists e :: e in p.edges && p.edges[e].target == b.block && LeavesVia(p, a, p.edges[e]))
  {
  }

  type Store = map<Var, Value>

  /** A variable the store does not mention holds an arbitrary fixed value. */
  function Read(s: Store, v: Var): Value {
    if v in s then s[v] else 0
  }

  function ReadAll(s: Store, vs: seq<Var>): seq<Value> {
    seq(|vs|, i requires 0 <= i < |vs| => Read(s, vs[i]))
  }

  /** What operation `op` hands back for its `j`-th definition, given its inputs and whatever the environment
      (memory, devices, callees) contributes to this one execution. */
  type Semantics = (int, int, seq<Value>, nat) -> Value

  function Results(sem: Semantics, inst: Inst, s: Store, env: int): seq<Value> {
    if inst.IsTransfer() then ReadAll(s, inst.Sources())
    else seq(|inst.defs|, (j: nat) => sem(inst.op, env, ReadAll(s, inst.uses), j))
  }

  /** All results are computed before any of them is written. */
  function Assign(s: Store, targets: seq<Var>, values: seq<Value>): Store
    decreases |targets|
  {
    if |targets| == 0 || |values| == 0 then s
    else Assign(s[targets[0] := values[0]], targets[1..], values[1..])
  }

  function ExecInst(sem: Semantics, inst: Inst, s: Store, env: int): Store {
    Assign(s, inst.Targets(), Results(sem, inst, s, env))
  }

  /** A run, newest step last. `env` is what the environment contributes to that step. */
  datatype Run = Enter(at: Pos, initial: Store) | Step(prev: Run, at: Pos, env: int)

  /** `r` is a run that starts where `p` starts. */
  ghost predicate IsRun(p: Cfg, r: Run) {
    match r
    case Enter(at, _) => at == Pos(p.entry, 0)
    case Step(prev, at, _) => IsRun(p, prev) && Next(p, prev.at, at)
  }

  /** The store a run ends in. A step to index 0 crosses an edge; any other step executes an instruction. */
  function StoreOf(p: Cfg, sem: Semantics, r: Run): Store {
    match r
    case Enter(_, initial) => initial
    case Step(prev, at, env) =>
      if at.idx == 0 || !AtInst(p, prev.at) then StoreOf(p, sem, prev)
      else ExecInst(sem, InstAt(p, prev.at), StoreOf(p, sem, prev), env)
  }

  /** Whether `r` has executed the instruction at `q` to completion at least once. */
  predicate Executed(r: Run, q: Pos) {
    match r
    case Enter(_, _) => false
    case Step(prev, at, _) => Executed(prev, q) || (prev.at == q && at == After(q))
  }

  ghost predicate ReachablePos(p: Cfg, q: Pos) {
    exists r :: IsRun(p, r) && r.at == q
  }

  lemma {:induction false} RunInRange(p: Cfg, r: Run)
    requires p.WellFormed() && IsRun(p, r)
    ensures InRange(p, r.at)
  {
    match r
    case Enter(_, _) =>
    case Step(prev, at, _) => RunInRange(p, prev);
  }

  lemma {:induction false} AssignOther(s: Store, targets: seq<Var>, values: seq<Value>, v: Var)
    requires v !in targets
    ensures Read(Assign(s, targets, values), v) == Read(s, v)
    decreases |targets|
  {
    if |targets| != 0 && |values| != 0 {
      AssignOther(s[targets[0] := values[0]], targets[1..], values[1..], v);
    }
  }

  /** Two stores that agree on `v` before the same writes agree on `v` after them, and on every target. */
  lemma {:induction false} AssignAgree(s: Store, t: Store, targets: seq<Var>, values: seq<Value>, v: Var)
    requires Read(s, v) == Read(t, v) || (v in targets && |values| >= |targets|)
    ensures Read(Assign(s, targets, values), v) == Read(Assign(t, targets, values), v)
    decreases |targets|
  {
    if |targets| != 0 && |values| != 0 {
      AssignAgree(s[targets[0] := values[0]], t[targets[0] := values[0]], targets[1..], values[1..], v);
    }
  }

  /** A variable written exactly once holds what was written to it. */
  lemma {:induction false} AssignOnce(s: Store, targets: seq<Var>, values: seq<Value>, i: nat)
    requires i < |targets| <= |values|
    requires forall j :: 0 <= j < |targets| && j != i ==> targets[j] != targets[i]
    ensures Read(Assign(s, targets, values), targets[i]) == values[i]
    decreases |targets|
  {
    var rest := s[targets[0] := values[0]];
    if i == 0 {
      assert targets[0] !in targets[1..];
      AssignOther(rest, targets[1..], values[1..], targets[0]);
    } else {
      AssignOnce(rest, targets[1..], values[1..], i - 1);
    }
  }

  /** What an instruction writes: a copy or alias, the value each source had; any other, what its operation makes of the
      values of its operands, one result for each definition. */
  lemma ExecWrites(sem: Semantics, inst: Inst, s: Store, env: int, j: nat)
    requires inst.Ok() && j < |inst.defs| && forall i :: 0 <= i < |inst.defs| && i != j ==> inst.defs[i] != inst.defs[j]
    ensures match inst.transfer
            case Copy => Read(ExecInst(sem, inst, s, env), inst.defs[j]) == Read(s, inst.uses[0])
            case Aliases(definitions, sources) =>
              definitions != [] && |definitions| == |sources| ==>
                forall i :: 0 <= i < |sources| ==> Read(ExecInst(sem, inst, s, env), definitions[i]) == Read(s, sources[i])
            case NoTransfer =>
              Read(ExecInst(sem, inst, s, env), inst.defs[j]) ==
              sem(inst.op, env, seq(|inst.uses|, i requires 0 <= i < |inst.uses| => Read(s, inst.uses[i])), j)
  {
    match inst.transfer
    case NoTransfer =>
      assert ReadAll(s, inst.uses) == seq(|inst.uses|, i requires 0 <= i < |inst.uses| => Read(s, inst.uses[i]));
      AssignOnce(s, inst.defs, Results(sem, inst, s, env), j);
    case Copy => AssignOnce(s, inst.defs, Results(sem, inst, s, env), j);
    case Aliases(definitions, sources) =>
      if definitions != [] && |definitions| == |sources| {
        forall i | 0 <= i < |sources| ensures Read(ExecInst(sem, inst, s, env), definitions[i]) == Read(s, sources[i]) {
          assert forall k :: 0 <= k < |definitions| && k != i ==> definitions[k] != definitions[i];
          AssignOnce(s, definitions, Results(sem, inst, s, env), i);
        }
      }
  }

  /** An instruction leaves every variable it does not define unchanged. */
  lemma ExecOther(sem: Semantics, inst: Inst, s: Store, env: int, v: Var)
    requires inst.Ok() && v !in inst.defs
    ensures Read(ExecInst(sem, inst, s, env), v) == Read(s, v)
  {
    assert v !in inst.Targets();
    AssignOther(s, inst.Targets(), Results(sem, inst, s, env), v);
  }

  /** Two executions whose operands agree write the same values, and keep agreeing on what they agreed on. */
  lemma ExecAgree(sem: Semantics, inst: Inst, s: Store, t: Store, env: int, v: Var)
    requires inst.Ok()
    requires forall u :: u in inst.uses ==> Read(s, u) == Read(t, u)
    requires Read(s, v) == Read(t, v) || v in inst.defs
    ensures Read(ExecInst(sem, inst, s, env), v) == Read(ExecInst(sem, inst, t, env), v)
  {
    assert ReadAll(s, inst.uses) == ReadAll(t, inst.uses);
    assert ReadAll(s, inst.Sources()) == ReadAll(t, inst.Sources());
    assert Results(sem, inst, s, env) == Results(sem, inst, t, env);
    AssignAgree(s, t, inst.Targets(), Results(sem, inst, s, env), v);
  }
}
