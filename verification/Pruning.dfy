/** Deleting a set of instructions from every block at once, and when that changes nothing a run observes. */
module Pruning {
  import opened Wrappers
  import opened Program

  /** The instructions that survive among the first `i` of block `b`. */
  function Prefix(p: Cfg, dead: set<Pos>, b: BlockId, i: nat): seq<Inst>
    requires i <= |Insts(p, b)|
  {
    if i == 0 then []
    else Prefix(p, dead, b, i - 1) + if Pos(b, i - 1) in dead then [] else [Insts(p, b)[i - 1]]
  }

  /** The program left when every instruction of `dead` is gone. Blocks and edges stay. */
  function Prune(p: Cfg, dead: set<Pos>): Cfg {
    p.(blocks := map b | b in p.blocks :: Prefix(p, dead, b, |Insts(p, b)|))
  }

  /** Where a position of `p` lies in the pruned program. */
  function Shift(p: Cfg, dead: set<Pos>, a: Pos): Pos
    requires a.idx <= |Insts(p, a.block)|
  {
    Pos(a.block, |Prefix(p, dead, a.block, a.idx)|)
  }

  /** Only instructions that cannot throw are deleted. */
  ghost predicate Quiet(p: Cfg, dead: set<Pos>) {
    forall a :: a in dead && AtInst(p, a) ==> !InstAt(p, a).mayUnwind
  }

  lemma {:induction false} PrefixGrows(p: Cfg, dead: set<Pos>, b: BlockId, i: nat, j: nat)
    requires i <= j <= |Insts(p, b)|
    ensures Prefix(p, dead, b, i) <= Prefix(p, dead, b, j)
    decreases j
  {
    if i < j {
      PrefixGrows(p, dead, b, i, j - 1);
    }
  }

  /** A surviving instruction sits at its shifted position. */
  lemma SurvivorAt(p: Cfg, dead: set<Pos>, a: Pos)
    requires a.block in p.blocks && AtInst(p, a) && a !in dead
    ensures AtInst(Prune(p, dead), Shift(p, dead, a))
    ensures InstAt(Prune(p, dead), Shift(p, dead, a)) == InstAt(p, a)
    ensures Shift(p, dead, After(a)) == After(Shift(p, dead, a))
  {
    PrefixGrows(p, dead, a.block, a.idx + 1, |Insts(p, a.block)|);
    assert Prefix(p, dead, a.block, a.idx + 1)[|Prefix(p, dead, a.block, a.idx)|] == InstAt(p, a);
  }

  /** Every instruction of the pruned block survived from somewhere. */
  lemma {:induction false} SurvivorFrom(p: Cfg, dead: set<Pos>, b: BlockId, i: nat, k: nat) returns (at: nat)
    requires i <= |Insts(p, b)| && k < |Prefix(p, dead, b, i)|
    ensures at < i && Pos(b, at) !in dead && |Prefix(p, dead, b, at)| == k
    ensures Insts(p, b)[at] == Prefix(p, dead, b, i)[k]
  {
    if k < |Prefix(p, dead, b, i - 1)| {
      at := SurvivorFrom(p, dead, b, i - 1, k);
    } else {
      at := i - 1;
    }
  }

  ghost function ShiftAll(p: Cfg, dead: set<Pos>, points: set<Pos>): set<Pos> {
    set a | a in points && a !in dead && a.idx <= |Insts(p, a.block)| :: Shift(p, dead, a)
  }

  /** Two surviving instructions stay apart, and from the end of their block. */
  lemma ShiftApart(p: Cfg, dead: set<Pos>, a: Pos, b: Pos)
    requires a.idx <= |Insts(p, a.block)| && AtInst(p, b) && a !in dead && b !in dead
    requires Shift(p, dead, a) == Shift(p, dead, b)
    ensures a == b
  {
    if a.idx < b.idx {
      PrefixGrows(p, dead, a.block, a.idx + 1, b.idx);
    } else if b.idx < a.idx {
      PrefixGrows(p, dead, a.block, b.idx + 1, a.idx);
    }
  }

  lemma ThrowsKept(p: Cfg, dead: set<Pos>, b: BlockId)
    requires Quiet(p, dead)
    ensures Throws(Prune(p, dead), b) == Throws(p, b)
  {
    if Throws(p, b) {
      var i :| 0 <= i < |Insts(p, b)| && Insts(p, b)[i].mayUnwind;
      assert InstAt(p, Pos(b, i)).mayUnwind;
      SurvivorAt(p, dead, Pos(b, i));
    }
    if Throws(Prune(p, dead), b) {
      var k :| 0 <= k < |Insts(Prune(p, dead), b)| && Insts(Prune(p, dead), b)[k].mayUnwind;
      var at := SurvivorFrom(p, dead, b, |Insts(p, b)|, k);
    }
  }

  /** Leaving a block stays possible, before the same instruction or after the last one. */
  lemma CrossesKept(p: Cfg, dead: set<Pos>, a: Pos, b: Pos)
    requires p.WellFormed() && Quiet(p, dead) && InRange(p, a) && Crosses(p, a, b)
    ensures Crosses(Prune(p, dead), Shift(p, dead, a), b)
  {
    var e :| e in p.edges && LeavesVia(p, a, p.edges[e]) && p.edges[e].target == b.block;
    ThrowsKept(p, dead, a.block);
    if Departs(p, p.edges[e]) {
      SurvivorAt(p, dead, a);
    }
    assert LeavesVia(Prune(p, dead), Shift(p, dead, a), p.edges[e]);
  }

  /** The run of the pruned program that follows `r`, skipping the deleted instructions. */
  function PruneRun(p: Cfg, dead: set<Pos>, r: Run): Run {
    match r
    case Enter(at, initial) => r
    case Step(prev, at, env) =>
      if Execs(p, prev.at, at) && prev.at in dead then PruneRun(p, dead, prev)
      else Step(PruneRun(p, dead, prev),
                if at.idx <= |Insts(p, at.block)| then Shift(p, dead, at) else at, env)
  }

  /** `live` says which variables matter at each position: enough for every surviving read, carried along every
      edge, and never what a deleted instruction defines. */
  ghost predicate KeepsLive(p: Cfg, dead: set<Pos>, live: (Pos, Var) -> bool) {
    && (forall a, v :: InRange(p, a) && AtInst(p, a) && live(After(a), v) ==>
          && (a in dead ==> live(a, v) && v !in InstAt(p, a).defs)
          && (v !in InstAt(p, a).defs ==> live(a, v)))
    && (forall a, v :: InRange(p, a) && AtInst(p, a) && a !in dead && v in InstAt(p, a).uses ==> live(a, v))
    && (forall a, b, v :: InRange(p, a) && Crosses(p, a, b) && live(b, v) ==> live(a, v))
  }

  /** The stores agree on every variable that matters at `a`. */
  ghost predicate Agree(live: (Pos, Var) -> bool, a: Pos, s: Store, t: Store) {
    forall v :: live(a, v) ==> Read(s, v) == Read(t, v)
  }

  /** Executing a deleted instruction on one side only loses nothing that matters. */
  lemma DeletedKeepsAgreement(p: Cfg, dead: set<Pos>, live: (Pos, Var) -> bool, sem: Semantics, a: Pos, s: Store,
                              t: Store, env: int)
    requires KeepsLive(p, dead, live) && InRange(p, a) && AtInst(p, a) && a in dead && InstAt(p, a).Ok()
    requires Agree(live, a, s, t)
    ensures Agree(live, After(a), ExecInst(sem, InstAt(p, a), s, env), t)
  {
    forall v | live(After(a), v) ensures Read(ExecInst(sem, InstAt(p, a), s, env), v) == Read(t, v) {
      ExecOther(sem, InstAt(p, a), s, env, v);
    }
  }

  /** Executing a surviving instruction on both sides reads the same values and keeps the agreement. */
  lemma SurvivorKeepsAgreement(p: Cfg, dead: set<Pos>, live: (Pos, Var) -> bool, sem: Semantics, a: Pos, s: Store,
                               t: Store, env: int)
    requires KeepsLive(p, dead, live) && InRange(p, a) && AtInst(p, a) && a !in dead && InstAt(p, a).Ok()
    requires Agree(live, a, s, t)
    ensures forall u :: u in InstAt(p, a).uses ==> Read(s, u) == Read(t, u)
    ensures Agree(live, After(a), ExecInst(sem, InstAt(p, a), s, env), ExecInst(sem, InstAt(p, a), t, env))
  {
    forall v | live(After(a), v)
      ensures Read(ExecInst(sem, InstAt(p, a), s, env), v) == Read(ExecInst(sem, InstAt(p, a), t, env), v)
    {
      ExecAgree(sem, InstAt(p, a), s, t, env, v);
    }
  }

  /** The pruned run is a run and stops where `r` stops. */
  lemma {:induction false} PruneRuns(p: Cfg, dead: set<Pos>, r: Run)
    requires p.WellFormed() && Quiet(p, dead) && IsRun(p, r)
    ensures IsRun(Prune(p, dead), PruneRun(p, dead, r))
    ensures InRange(p, r.at) && PruneRun(p, dead, r).at == Shift(p, dead, r.at)
  {
    RunInRange(p, r);
    match r
    case Enter(_, _) =>
    case Step(prev, at, env) =>
      PruneRuns(p, dead, prev);
      if Crosses(p, prev.at, at) {
        CrossesKept(p, dead, prev.at, at);
      } else if prev.at !in dead {
        SurvivorAt(p, dead, prev.at);
      }
  }

  /** The pruned run agrees with `r` on everything that matters where `r` stands. Taken at every prefix of a run,
      this says each surviving instruction reads the same values. */
  lemma {:induction false} PruneSimulates(p: Cfg, dead: set<Pos>, live: (Pos, Var) -> bool, sem: Semantics, r: Run)
    requires p.WellFormed() && p.Contracts() && Quiet(p, dead) && KeepsLive(p, dead, live) && IsRun(p, r)
    ensures Agree(live, r.at, StoreOf(p, sem, r), StoreOf(Prune(p, dead), sem, PruneRun(p, dead, r)))
  {
    RunInRange(p, r);
    match r
    case Enter(_, _) =>
    case Step(prev, at, env) =>
      PruneSimulates(p, dead, live, sem, prev);
      PruneRuns(p, dead, prev);
      var s, t := StoreOf(p, sem, prev), StoreOf(Prune(p, dead), sem, PruneRun(p, dead, prev));
      if Execs(p, prev.at, at) {
        if prev.at in dead {
          DeletedKeepsAgreement(p, dead, live, sem, prev.at, s, t, env);
        } else {
          SurvivorAt(p, dead, prev.at);
          SurvivorKeepsAgreement(p, dead, live, sem, prev.at, s, t, env);
        }
      }
  }

  /** `r` can step over deleted instructions until a surviving one, or the end of the block, without the pruned
      run noticing. */
  lemma {:induction false} SkipDeleted(p: Cfg, dead: set<Pos>, r: Run) returns (q: Run)
    requires p.WellFormed() && Quiet(p, dead) && IsRun(p, r)
    ensures IsRun(p, q) && PruneRun(p, dead, q) == PruneRun(p, dead, r)
    ensures InRange(p, q.at) && Shift(p, dead, q.at) == PruneRun(p, dead, r).at
    ensures AtInst(p, q.at) ==> q.at !in dead
    decreases |Insts(p, r.at.block)| - r.at.idx
  {
    RunInRange(p, r);
    if AtInst(p, r.at) && r.at in dead {
      q := SkipDeleted(p, dead, Step(r, After(r.at), 0));
    } else {
      PruneRuns(p, dead, r);
      q := r;
    }
  }

  /** From a position that is not about to delete anything, the pruned program can only do what `p` can. */
  lemma PrunedMoves(p: Cfg, dead: set<Pos>, a: Pos, b: Pos)
    requires p.WellFormed() && Quiet(p, dead) && InRange(p, a) && (AtInst(p, a) ==> a !in dead)
    requires Next(Prune(p, dead), Shift(p, dead, a), b)
    ensures Execs(Prune(p, dead), Shift(p, dead, a), b) ==> AtInst(p, a) && b == Shift(p, dead, After(a))
    ensures !Execs(Prune(p, dead), Shift(p, dead, a), b) ==> Crosses(p, a, b)
  {
    if AtInst(p, a) {
      SurvivorAt(p, dead, a);
    }
    if !Execs(Prune(p, dead), Shift(p, dead, a), b) {
      var e :| e in p.edges && LeavesVia(Prune(p, dead), Shift(p, dead, a), p.edges[e]) && p.edges[e].target == b.block;
      ThrowsKept(p, dead, a.block);
      assert LeavesVia(p, a, p.edges[e]);
    }
  }

  /** A run that is not about to delete anything follows one step of the pruned program. */
  lemma LiftStep(p: Cfg, dead: set<Pos>, r: Run, at: Pos, env: int) returns (q: Run)
    requires p.WellFormed() && Quiet(p, dead) && IsRun(p, r) && InRange(p, r.at) && (AtInst(p, r.at) ==> r.at !in dead)
    requires Next(Prune(p, dead), Shift(p, dead, r.at), at)
    ensures IsRun(p, q) && PruneRun(p, dead, q) == Step(PruneRun(p, dead, r), at, env)
  {
    PrunedMoves(p, dead, r.at, at);
    if Execs(Prune(p, dead), Shift(p, dead, r.at), at) {
      q := Step(r, After(r.at), env);
    } else {
      q := Step(r, at, env);
    }
  }

  /** Every run of the pruned program is the pruning of some run of the original, so nothing new can happen. */
  lemma {:induction false} PruneIsOnto(p: Cfg, dead: set<Pos>, r: Run) returns (q: Run)
    requires p.WellFormed() && Quiet(p, dead) && IsRun(Prune(p, dead), r)
    ensures IsRun(p, q) && PruneRun(p, dead, q) == r
  {
    match r
    case Enter(_, _) => q := r;
    case Step(prev, at, env) =>
      q := PruneIsOnto(p, dead, prev);
      q := SkipDeleted(p, dead, q);
      q := LiftStep(p, dead, q, at, env);
  }

  /** Retains the instructions of `b` that are not dead, counting positions as they stood before. */
  method RetainBlock(p: Cfg, dead: set<Pos>, b: BlockId) returns (kept: seq<Inst>)
    ensures kept == Prefix(p, dead, b, |Insts(p, b)|)
  {
    var insts := Insts(p, b);
    kept := [];
    for index := 0 to |insts|
      invariant kept == Prefix(p, dead, b, index)
    {
      if Pos(b, index) !in dead {
        kept := kept + [insts[index]];
      }
    }
  }

  method RetainAll(p: Cfg, dead: set<Pos>) returns (q: Cfg)
    requires p.WellFormed()
    ensures q == Prune(p, dead)
  {
    var blocks := map[];
    for b := 0 to p.bound
      invariant blocks.Keys == set x | x in p.blocks && x < b
      invariant forall x :: x in blocks ==> blocks[x] == Prefix(p, dead, x, |Insts(p, x)|)
    {
      if b in p.blocks {
        var kept := RetainBlock(p, dead, b);
        blocks := blocks[b := kept];
      }
    }
    q := p.(blocks := blocks);
    assert blocks == Prune(p, dead).blocks;
  }
}
