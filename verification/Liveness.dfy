/** The row transfer of liveness and the instruction-by-instruction replay are the same function. */
module RowTransfer {
  import opened Wrappers
  import opened Program
  import opened Backward

  /** Ordinary liveness counts every instruction. */
  function AllForced(p: Cfg): Forced {
    set b, i | b in p.blocks && 0 <= i < |p.blocks[b]| :: Pos(b, i)
  }

  /** Reads of a block no earlier write of it, from instruction `i` on, covers. */
  function Exposed(insts: seq<Inst>, i: nat): set<Var>
    requires i <= |insts|
    decreases |insts| - i
  {
    if i == |insts| then {} else Exposed(insts, i + 1) - Elems(insts[i].defs) + Elems(insts[i].uses)
  }

  function Written(insts: seq<Inst>, i: nat): set<Var>
    requires i <= |insts|
    decreases |insts| - i
  {
    if i == |insts| then {} else Elems(insts[i].defs) + Written(insts, i + 1)
  }

  /** Writes before the first instruction, from `i` on, that may throw. */
  function Early(insts: seq<Inst>, i: nat): set<Var>
    requires i <= |insts|
    decreases |insts| - i
  {
    if i == |insts| || insts[i].mayUnwind then {} else Elems(insts[i].defs) + Early(insts, i + 1)
  }

  predicate ThrowsFrom(insts: seq<Inst>, i: nat) { exists k :: i <= k < |insts| && insts[k].mayUnwind }

  /** The closed form of a whole block equals its backward replay. */
  lemma {:induction false} ClosedForm(p: Cfg, b: BlockId, i: nat, out: set<Var>, unwind: set<Var>)
    requires b in p.blocks && i <= |Insts(p, b)|
    ensures var insts := Insts(p, b);
            Before(p, AllForced(p), b, i, out, unwind) ==
            (out - Written(insts, i)) + Exposed(insts, i)
            + (if ThrowsFrom(insts, i) then unwind - Early(insts, i) else {})
    decreases |Insts(p, b)| - i
  {
    var insts := Insts(p, b);
    if i < |insts| {
      ClosedForm(p, b, i + 1, out, unwind);
      assert Pos(b, i) in AllForced(p);
      assert ThrowsFrom(insts, i) <==> insts[i].mayUnwind || ThrowsFrom(insts, i + 1);
    }
  }

  /** A replay from larger sets finds a larger set. */
  lemma {:induction false} BeforeMonotone(p: Cfg, forced: Forced, b: BlockId, i: nat, out: set<Var>, unwind: set<Var>,
                                          out': set<Var>, unwind': set<Var>)
    requires i <= |Insts(p, b)| && out <= out' && unwind <= unwind'
    ensures Before(p, forced, b, i, out, unwind) <= Before(p, forced, b, i, out', unwind')
    decreases |Insts(p, b)| - i
  {
    if i < |Insts(p, b)| {
      BeforeMonotone(p, forced, b, i + 1, out, unwind, out', unwind');
      var inst, after := Insts(p, b)[i], Before(p, forced, b, i + 1, out, unwind);
      if !Needed(inst, Pos(b, i) in forced, after) {
        assert forall v :: v in after ==> v !in inst.defs;
      } else if Pos(b, i) !in forced && inst.defs != [] {
        var d :| d in inst.defs && d in after;
        assert d in Before(p, forced, b, i + 1, out', unwind');
      }
    }
  }

  ghost predicate SupportedAt(p: Cfg, seeds: Seeds, forced: Forced, facts: Facts, b: BlockId) {
    LiveIn(facts, b) <= LiveBefore(p, seeds, forced, facts, Pos(b, 0))
  }
}

/** Ordinary liveness: what it means by paths, and how it relates to the coarser block-level problem. */
module LivenessMeaning {
  import opened Wrappers
  import opened Program
  import opened Backward
  import opened RowTransfer
  import opened Trails

  /** A forward path of positions. */
  datatype Route = Here(at: Pos) | Ahead(at: Pos, rest: Route)

  ghost predicate IsRoute(p: Cfg, t: Route) {
    InRange(p, t.at) && (t.Ahead? ==> IsRoute(p, t.rest) && Next(p, t.at, t.rest.at))
  }

  /** The route ends at a read of `v`, or at the end of a block whose seed names it, and defines it nowhere before. */
  ghost predicate Demands(p: Cfg, seeds: Seeds, t: Route, v: Var) {
    match t
    case Here(at) =>
      if AtInst(p, at) then v in InstAt(p, at).uses else at.block in seeds && v in seeds[at.block]
    case Ahead(at, rest) =>
      (Execs(p, at, rest.at) ==> v !in InstAt(p, at).defs) && Demands(p, seeds, rest, v)
  }

  ghost predicate LiveByPath(p: Cfg, seeds: Seeds, a: Pos, v: Var) {
    exists t :: IsRoute(p, t) && t.at == a && Demands(p, seeds, t, v)
  }

  lemma {:induction false} RouteIsChain(p: Cfg, seeds: Seeds, t: Route, v: Var) returns (c: Chain)
    requires IsRoute(p, t) && Demands(p, seeds, t, v)
    ensures IsChain(p, seeds, AllForced(p), c) && c.at == t.at && c.v == v
  {
    match t
    case Here(at) =>
      c := if AtInst(p, at) then ReadAt(at, v) else SeedAt(at, v);
    case Ahead(at, rest) =>
      c := RouteIsChain(p, seeds, rest, v);
      c := Move(at, v, c);
  }

  lemma {:induction false} ChainIsRoute(p: Cfg, seeds: Seeds, c: Chain) returns (t: Route)
    requires IsChain(p, seeds, AllForced(p), c)
    ensures IsRoute(p, t) && t.at == c.at && Demands(p, seeds, t, c.v)
  {
    t := Here(c.at);
    if c.Move? {
      t := ChainIsRoute(p, seeds, c.rest);
      t := Ahead(c.at, t);
    }
  }

  /** Solved liveness facts are exact at every position: a variable is live where some path, unwinds leaving before
      a throw, reads it or ends in a seed that names it before anything defines it. */
  lemma LivenessExact(p: Cfg, seeds: Seeds, facts: Facts, a: Pos, v: Var)
    requires p.WellFormed() && Justified(p, seeds, AllForced(p), facts) && Closed(p, seeds, AllForced(p), facts)
    requires InRange(p, a)
    ensures v in LiveBefore(p, seeds, AllForced(p), facts, a) <==> LiveByPath(p, seeds, a, v)
  {
    var forced := AllForced(p);
    FactsExact(p, seeds, forced, facts, a, v);
    if Matters(p, seeds, forced, a, v) {
      var c :| IsChain(p, seeds, forced, c) && c.at == a && c.v == v;
      var t := ChainIsRoute(p, seeds, c);
    }
    if LiveByPath(p, seeds, a, v) {
      var t :| IsRoute(p, t) && t.at == a && Demands(p, seeds, t, v);
      var c := RouteIsChain(p, seeds, t, v);
    }
  }

  /** What the block-level problem reads at the end of a block: every successor alike. */
  ghost function CoarseOut(p: Cfg, coarse: Facts, b: BlockId): set<Var> {
    FlowBack(p, coarse, b, false) + FlowBack(p, coarse, b, true)
  }

  /** The block-level transfer: a throwing instruction keeps everything the successors read. */
  ghost function CoarseTransfer(p: Cfg, seeds: Seeds, coarse: Facts, b: BlockId): set<Var> {
    Before(p, AllForced(p), b, 0, Elems(Seed(seeds, b)) + CoarseOut(p, coarse, b),
           if FirstUnwind(p, b).Some? then CoarseOut(p, coarse, b) else {})
  }

  lemma {:induction false} DepartingUnwinds(p: Cfg, facts: Facts, b: BlockId, v: Var)
    requires p.WellFormed() && b in p.blocks && v in FlowBack(p, facts, b, true)
    ensures FirstUnwind(p, b).Some?
  {
    var e := FlowFrom(p, facts, OutRow(p, b), true, v);
    assert HasUnwindEdge(p, b);
    var i :| 0 <= i < |Insts(p, b)| && Insts(p, b)[i].mayUnwind;
  }

  /** A solution of the coarser problem is closed under the exact one. */
  lemma CoarseCloses(p: Cfg, seeds: Seeds, coarse: Facts, x: BlockId)
    requires p.WellFormed() && x in p.blocks && coarse.Keys == p.blocks.Keys
    requires coarse[x] == CoarseTransfer(p, seeds, coarse, x)
    ensures ClosedAt(p, seeds, AllForced(p), coarse, x)
  {
    var unwinds := FlowBack(p, coarse, x, true);
    if unwinds != {} {
      HasMember(unwinds);
      var u :| u in unwinds;
      DepartingUnwinds(p, coarse, x, u);
    }
    BeforeMonotone(p, AllForced(p), x, 0, OutOf(p, seeds, coarse, x), unwinds, Elems(Seed(seeds, x)) + CoarseOut(p, coarse, x),
                   if FirstUnwind(p, x).Some? then CoarseOut(p, coarse, x) else {});
  }

  /** Any solution of the coarser problem contains the exact live sets. */
  lemma CoarseContains(p: Cfg, seeds: Seeds, coarse: Facts, b: BlockId, v: Var)
    requires p.WellFormed() && b in p.blocks && coarse.Keys == p.blocks.Keys
    requires forall x :: x in p.blocks ==> coarse[x] == CoarseTransfer(p, seeds, coarse, x)
    requires LiveByPath(p, seeds, Pos(b, 0), v)
    ensures v in coarse[b]
  {
    var forced := AllForced(p);
    forall x | x in p.blocks ensures ClosedAt(p, seeds, forced, coarse, x) {
      CoarseCloses(p, seeds, coarse, x);
    }
    var t :| IsRoute(p, t) && t.at == Pos(b, 0) && Demands(p, seeds, t, v);
    var c := RouteIsChain(p, seeds, t, v);
    ClosedComplete(p, seeds, forced, coarse, c);
    assert ClosedAt(p, seeds, forced, coarse, b);
  }
}
