/** The backward replay that liveness and dead-code analysis share, and its meaning by paths.

    `forced` names the instructions that count whatever is live after them. Ordinary liveness forces every
    instruction; dead-code analysis forces those with an effect, a throw or an observer. */
module Backward {
  import opened Wrappers
  import opened Program

  type Seeds = map<BlockId, seq<Var>>
  type Forced = set<Pos>
  function Seed(seeds: Seeds, b: BlockId): seq<Var> { if b in seeds then seeds[b] else [] }

  type Facts = map<BlockId, set<Var>>

  /** One instruction's backward step: kill its definitions, then add its reads and, if it may throw, what an
      unwind reads. */
  function StepBackward(live: set<Var>, inst: Inst, unwind: set<Var>): set<Var> {
    live - Elems(inst.defs) + Elems(inst.uses) + if inst.mayUnwind then unwind else {}
  }

  predicate Needed(inst: Inst, forced: bool, live: set<Var>) {
    forced || inst.defs == [] || exists d :: d in inst.defs && d in live
  }

  /** What is live just before instruction `i` of `b` when `out` is live at its end and `unwind` is what an unwind
      reads. An instruction that is not needed takes no step. */
  function Before(p: Cfg, forced: Forced, b: BlockId, i: nat, out: set<Var>, unwind: set<Var>): set<Var>
    requires i <= |Insts(p, b)|
    decreases |Insts(p, b)| - i
  {
    if i == |Insts(p, b)| then out
    else
      var after := Before(p, forced, b, i + 1, out, unwind);
      if Needed(Insts(p, b)[i], Pos(b, i) in forced, after) then StepBackward(after, Insts(p, b)[i], unwind) else after
  }

  function LiveIn(facts: Facts, b: BlockId): set<Var> { if b in facts then facts[b] else {} }

  /** What flows back along the edges of `row` that leave their block before a throwing instruction, or along
      those that leave it after its last one. */
  function FlowAlong(p: Cfg, facts: Facts, row: seq<EdgeId>, departing: bool): set<Var> {
    if row == [] then {}
    else
      var e := row[|row| - 1];
      FlowAlong(p, facts, row[..|row| - 1], departing)
      + if e in p.edges && Departs(p, p.edges[e]) == departing then LiveIn(facts, p.edges[e].target) else {}
  }

  function OutRow(p: Cfg, b: BlockId): seq<EdgeId> { if b in p.out then p.out[b] else [] }

  function FlowBack(p: Cfg, facts: Facts, b: BlockId, departing: bool): set<Var> {
    FlowAlong(p, facts, OutRow(p, b), departing)
  }

  function OutOf(p: Cfg, seeds: Seeds, facts: Facts, b: BlockId): set<Var> {
    Elems(Seed(seeds, b)) + FlowBack(p, facts, b, false)
  }

  lemma {:induction false} FlowHas(p: Cfg, facts: Facts, row: seq<EdgeId>, departing: bool, e: EdgeId, v: Var)
    requires e in row && e in p.edges && Departs(p, p.edges[e]) == departing && v in LiveIn(facts, p.edges[e].target)
    ensures v in FlowAlong(p, facts, row, departing)
  {
    if row[|row| - 1] != e {
      assert e in row[..|row| - 1];
      FlowHas(p, facts, row[..|row| - 1], departing, e, v);
    }
  }

  lemma {:induction false} FlowFrom(p: Cfg, facts: Facts, row: seq<EdgeId>, departing: bool, v: Var) returns (e: EdgeId)
    requires v in FlowAlong(p, facts, row, departing)
    ensures e in row && e in p.edges && Departs(p, p.edges[e]) == departing && v in LiveIn(facts, p.edges[e].target)
  {
    if v in FlowAlong(p, facts, row[..|row| - 1], departing) {
      e := FlowFrom(p, facts, row[..|row| - 1], departing, v);
    } else {
      e := row[|row| - 1];
    }
  }

  function LiveBefore(p: Cfg, seeds: Seeds, forced: Forced, facts: Facts, a: Pos): set<Var>
    requires a.idx <= |Insts(p, a.block)|
  {
    Before(p, forced, a.block, a.idx, OutOf(p, seeds, facts, a.block), FlowBack(p, facts, a.block, true))
  }

  /** Why a variable matters at a position: a path along which it keeps its value up to a read that counts or to
      the end of a block whose seed names it. `Switch` passes from a variable to one computed from it. */
  datatype Chain =
    | ReadAt(at: Pos, v: Var)
    | SeedAt(at: Pos, v: Var)
    | Move(at: Pos, v: Var, rest: Chain)
    | Switch(at: Pos, v: Var, rest: Chain)

  ghost predicate IsChain(p: Cfg, seeds: Seeds, forced: Forced, c: Chain) {
    && InRange(p, c.at)
    && match c
       case ReadAt(at, v) => AtInst(p, at) && v in InstAt(p, at).uses && (at in forced || InstAt(p, at).defs == [])
       case SeedAt(at, v) => at.idx == |Insts(p, at.block)| && v in Seed(seeds, at.block)
       case Move(at, v, rest) =>
         && IsChain(p, seeds, forced, rest) && rest.v == v && Next(p, at, rest.at)
         && (Execs(p, at, rest.at) ==> v !in InstAt(p, at).defs)
       case Switch(at, v, rest) =>
         && IsChain(p, seeds, forced, rest) && AtInst(p, at) && rest.at == After(at)
         && v in InstAt(p, at).uses && rest.v in InstAt(p, at).defs
  }

  ghost predicate Matters(p: Cfg, seeds: Seeds, forced: Forced, a: Pos, v: Var) {
    exists c :: IsChain(p, seeds, forced, c) && c.at == a && c.v == v
  }

  /** An instruction counts when it is forced, defines nothing, or defines something that matters after it. */
  ghost predicate Kept(p: Cfg, seeds: Seeds, forced: Forced, a: Pos)
    requires AtInst(p, a)
  {
    a in forced || InstAt(p, a).defs == [] || exists d :: d in InstAt(p, a).defs && Matters(p, seeds, forced, After(a), d)
  }

  predicate UsedAt(p: Cfg, v: Var, a: Pos) { AtInst(p, a) && v in InstAt(p, a).uses }

  /** A variable nothing reads and no seed names never matters. */
  lemma {:induction false} UnreadNeverMatters(q: Cfg, seeds: Seeds, forced: Forced, c: Chain)
    requires forall x :: !UsedAt(q, c.v, x)
    requires forall b :: b in seeds ==> c.v !in seeds[b]
    ensures !IsChain(q, seeds, forced, c)
    decreases c
  {
    if c.Move? && c.rest.v == c.v {
      UnreadNeverMatters(q, seeds, forced, c.rest);
    }
    if c.ReadAt? || c.Switch? {
      assert !UsedAt(q, c.v, c.at);
    }
  }

  /** Every throwing instruction is forced. */
  ghost predicate ForcesThrows(p: Cfg, forced: Forced) {
    forall a :: AtInst(p, a) && InstAt(p, a).mayUnwind ==> a in forced
  }

  lemma MattersRead(p: Cfg, seeds: Seeds, forced: Forced, a: Pos, v: Var)
    requires InRange(p, a) && AtInst(p, a) && v in InstAt(p, a).uses && Kept(p, seeds, forced, a)
    ensures Matters(p, seeds, forced, a, v)
  {
    if a in forced || InstAt(p, a).defs == [] {
      assert IsChain(p, seeds, forced, ReadAt(a, v));
    } else {
      var d :| d in InstAt(p, a).defs && Matters(p, seeds, forced, After(a), d);
      var c :| IsChain(p, seeds, forced, c) && c.at == After(a) && c.v == d;
      assert IsChain(p, seeds, forced, Switch(a, v, c));
    }
  }

  lemma MattersMove(p: Cfg, seeds: Seeds, forced: Forced, a: Pos, b: Pos, v: Var)
    requires InRange(p, a) && Next(p, a, b) && Matters(p, seeds, forced, b, v)
    requires Execs(p, a, b) ==> v !in InstAt(p, a).defs
    ensures Matters(p, seeds, forced, a, v)
  {
    var c :| IsChain(p, seeds, forced, c) && c.at == b && c.v == v;
    assert IsChain(p, seeds, forced, Move(a, v, c));
  }

  lemma MattersSeed(p: Cfg, seeds: Seeds, forced: Forced, a: Pos, v: Var)
    requires a.block in p.blocks && a.idx == |Insts(p, a.block)| && v in Seed(seeds, a.block)
    ensures Matters(p, seeds, forced, a, v)
  {
    assert IsChain(p, seeds, forced, SeedAt(a, v));
  }

  /** Every variable the facts hold live at a block's start matters there. */
  ghost predicate Justified(p: Cfg, seeds: Seeds, forced: Forced, facts: Facts) {
    forall b, v {:trigger Matters(p, seeds, forced, Pos(b, 0), v)} ::
      b in facts && v in facts[b] ==> Matters(p, seeds, forced, Pos(b, 0), v)
  }

  /** The facts hold at least what one more replay of `b` finds. */
  ghost predicate ClosedAt(p: Cfg, seeds: Seeds, forced: Forced, facts: Facts, b: BlockId) {
    LiveBefore(p, seeds, forced, facts, Pos(b, 0)) <= LiveIn(facts, b)
  }

  ghost predicate Closed(p: Cfg, seeds: Seeds, forced: Forced, facts: Facts) {
    forall b {:trigger ClosedAt(p, seeds, forced, facts, b)} :: b in p.blocks ==> ClosedAt(p, seeds, forced, facts, b)
  }

  /** Along every edge that can be taken at `a`, what is live in the target matters at `a`. */
  lemma FlowMatters(p: Cfg, seeds: Seeds, forced: Forced, facts: Facts, a: Pos, v: Var)
    requires p.WellFormed() && Justified(p, seeds, forced, facts) && InRange(p, a)
    requires v in FlowBack(p, facts, a.block, AtInst(p, a)) && (AtInst(p, a) ==> InstAt(p, a).mayUnwind)
    ensures Matters(p, seeds, forced, a, v)
  {
    var e := FlowFrom(p, facts, OutRow(p, a.block), AtInst(p, a), v);
    assert LeavesVia(p, a, p.edges[e]);
    MattersMove(p, seeds, forced, a, Pos(p.edges[e].target, 0), v);
  }

  /** A replay from justified facts finds only variables that matter. */
  lemma {:induction false} ReplayJustified(p: Cfg, seeds: Seeds, forced: Forced, facts: Facts, a: Pos, v: Var)
    requires p.WellFormed() && Justified(p, seeds, forced, facts) && InRange(p, a)
    requires v in LiveBefore(p, seeds, forced, facts, a)
    ensures Matters(p, seeds, forced, a, v)
    decreases |Insts(p, a.block)| - a.idx
  {
    if a.idx == |Insts(p, a.block)| {
      if v in Seed(seeds, a.block) {
        MattersSeed(p, seeds, forced, a, v);
      } else {
        FlowMatters(p, seeds, forced, facts, a, v);
      }
    } else {
      var inst := InstAt(p, a);
      var after := LiveBefore(p, seeds, forced, facts, After(a));
      if v in after && v !in inst.defs {
        ReplayJustified(p, seeds, forced, facts, After(a), v);
        MattersMove(p, seeds, forced, a, After(a), v);
      } else if v in inst.uses {
        if a !in forced && inst.defs != [] {
          var d :| d in inst.defs && d in after;
          ReplayJustified(p, seeds, forced, facts, After(a), d);
        }
        MattersRead(p, seeds, forced, a, v);
      } else {
        FlowMatters(p, seeds, forced, facts, a, v);
      }
    }
  }

  lemma CrossingFlows(p: Cfg, seeds: Seeds, forced: Forced, facts: Facts, a: Pos, b: Pos, v: Var)
    requires p.WellFormed() && ForcesThrows(p, forced) && InRange(p, a) && Crosses(p, a, b)
    requires v in LiveIn(facts, b.block)
    ensures v in LiveBefore(p, seeds, forced, facts, a)
  {
    var e :| e in p.edges && LeavesVia(p, a, p.edges[e]) && p.edges[e].target == b.block;
    FlowHas(p, facts, OutRow(p, a.block), Departs(p, p.edges[e]), e, v);
  }

  /** One unfolding of the replay. */
  lemma ReplayStep(p: Cfg, seeds: Seeds, forced: Forced, facts: Facts, a: Pos, v: Var)
    requires AtInst(p, a)
    ensures var after := LiveBefore(p, seeds, forced, facts, After(a));
            && (v in after && v !in InstAt(p, a).defs ==> v in LiveBefore(p, seeds, forced, facts, a))
            && (v in InstAt(p, a).uses && Needed(InstAt(p, a), a in forced, after) ==>
                  v in LiveBefore(p, seeds, forced, facts, a))
  {
  }

  /** Closed facts miss nothing that matters, at any position. */
  lemma {:induction false} ClosedComplete(p: Cfg, seeds: Seeds, forced: Forced, facts: Facts, c: Chain)
    requires p.WellFormed() && ForcesThrows(p, forced) && Closed(p, seeds, forced, facts)
    requires IsChain(p, seeds, forced, c)
    ensures c.v in LiveBefore(p, seeds, forced, facts, c.at)
  {
    match c
    case SeedAt(at, v) =>
    case ReadAt(at, v) =>
      ReplayStep(p, seeds, forced, facts, at, v);
    case Switch(at, v, rest) =>
      ClosedComplete(p, seeds, forced, facts, rest);
      ReplayStep(p, seeds, forced, facts, at, v);
    case Move(at, v, rest) =>
      ClosedComplete(p, seeds, forced, facts, rest);
      if Execs(p, at, rest.at) {
        ReplayStep(p, seeds, forced, facts, at, v);
      } else {
        assert rest.at == Pos(rest.at.block, 0) && ClosedAt(p, seeds, forced, facts, rest.at.block);
        CrossingFlows(p, seeds, forced, facts, at, rest.at, v);
      }
  }

  /** Facts that are justified and closed are exact at every position of the program. */
  lemma FactsExact(p: Cfg, seeds: Seeds, forced: Forced, facts: Facts, a: Pos, v: Var)
    requires p.WellFormed() && ForcesThrows(p, forced) && Justified(p, seeds, forced, facts)
    requires Closed(p, seeds, forced, facts) && InRange(p, a)
    ensures v in LiveBefore(p, seeds, forced, facts, a) <==> Matters(p, seeds, forced, a, v)
  {
    if v in LiveBefore(p, seeds, forced, facts, a) {
      ReplayJustified(p, seeds, forced, facts, a, v);
    }
    if Matters(p, seeds, forced, a, v) {
      var c :| IsChain(p, seeds, forced, c) && c.at == a && c.v == v;
      ClosedComplete(p, seeds, forced, facts, c);
    }
  }
}
