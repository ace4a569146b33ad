/** Whether every execution that reaches one program point has executed another. */
module Dominance {
  import opened Wrappers
  import opened Program
  import opened Trails

  ghost predicate Dominates(p: Cfg, d: Pos, q: Pos) {
    if d.block == q.block then d.idx < q.idx
    else
      && BlockDominates(p, d.block, q.block)
      && var first := FirstUnwind(p, d.block);
         !(first.Some? && first.value <= d.idx && UnwindReaches(p, d.block, q.block))
  }

  /** Every run to `q` has executed the instruction at `d` to completion. */
  ghost predicate AlwaysExecuted(p: Cfg, d: Pos, q: Pos) {
    forall r :: IsRun(p, r) && r.at == q ==> Executed(r, d)
  }

  lemma {:induction false} ExecutedSoFar(p: Cfg, r: Run, d: Pos)
    requires IsRun(p, r) && d.block == r.at.block && d.idx < r.at.idx
    ensures Executed(r, d)
  {
    match r
    case Enter(_, _) =>
    case Step(prev, at, _) =>
      if prev.at != d {
        ExecutedSoFar(p, prev, d);
      }
  }

  /** A run that has not executed `d` either came by a trail around `d`'s block or unwound out of it before `d`. */
  lemma {:induction false} Missed(p: Cfg, r: Run, d: Pos) returns (t: Trail)
    requires p.WellFormed() && AtInst(p, d) && IsRun(p, r) && !Executed(r, d)
    ensures r.at.block == d.block ==> r.at.idx <= d.idx
    ensures r.at.block != d.block ==> IsTrail(p, t) && t.at == r.at.block && t.Avoids(d.block)
    ensures r.at.block != d.block ==>
              || t.First() == p.entry
              || (&& UnwindSuccessor(p, d.block, t.First())
                  && var f := FirstUnwind(p, d.block); f.Some? && f.value <= d.idx)
  {
    t := From(r.at.block);
    if r.at.block == d.block {
      if d.idx < r.at.idx {
        ExecutedSoFar(p, r, d);
      }
    } else if r.Step? {
      t := Missed(p, r.prev, d);
      if !Execs(p, r.prev.at, r.at) {
        var e :| e in p.edges && LeavesVia(p, r.prev.at, p.edges[e]) && p.edges[e].target == r.at.block;
        if r.prev.at.block == d.block {
          t := From(r.at.block);
          assert HasUnwindEdge(p, d.block);
        } else {
          t := To(t, r.at.block);
        }
      }
    }
  }

  /** A run that reaches `q` without having executed `d` refutes the dominance answer. */
  lemma MissedRefutes(p: Cfg, d: Pos, q: Pos, r: Run)
    requires p.WellFormed() && AtInst(p, d) && IsRun(p, r) && r.at == q && !Executed(r, d)
    ensures !Dominates(p, d, q)
  {
    var t := Missed(p, r, d);
    if d.block != q.block && t.First() == p.entry {
      assert IsTrailTo(p, t, p.entry, q.block);
    }
  }

  /** Unwinding out of `b` at its first throwing instruction, on the first visit to `b`. */
  lemma UnwindAround(p: Cfg, b: BlockId, to: BlockId) returns (r: Run)
    requires p.WellFormed() && ReachableBlock(p, b) && FirstUnwind(p, b).Some? && UnwindReaches(p, b, to)
    ensures IsRun(p, r) && r.at == Pos(to, 0)
    ensures forall d: Pos :: d.block == b && Executed(r, d) ==> d.idx < FirstUnwind(p, b).value
  {
    var f := FirstUnwind(p, b).value;
    var t :| IsTrailTo(p, t, p.entry, b);
    var around: Trail :| IsTrail(p, around) && around.at == to && around.Avoids(b)
                         && UnwindSuccessor(p, b, around.First());
    r := FirstEntry(p, t);
    r := Straight(p, r, f);
    UnwindCrosses(p, b, around.First());
    r := Step(r, Pos(around.First(), 0), 0);
    r := Follow(p, r, around, b);
  }

  lemma UnwindCrosses(p: Cfg, b: BlockId, u: BlockId)
    requires FirstUnwind(p, b).Some? && UnwindSuccessor(p, b, u)
    ensures Crosses(p, Pos(b, FirstUnwind(p, b).value), Pos(u, 0))
  {
    var e :| e in p.edges && p.edges[e].source == b && IsUnwind(p.edges[e]) && p.edges[e].target == u;
    assert LeavesVia(p, Pos(b, FirstUnwind(p, b).value), p.edges[e]);
  }

  lemma {:induction false} PrefixReachable(p: Cfg, t: Trail, b: BlockId)
    requires IsTrail(p, t) && !t.Avoids(b)
    ensures exists s :: IsTrailTo(p, s, t.First(), b)
  {
    var s := CutAt(p, t, b);
    assert IsTrailTo(p, s, t.First(), b);
  }

  /** Where the dominance answer is no, some run reaches `q` without executing `d`. */
  lemma DominatesComplete(p: Cfg, d: Pos, q: Pos) returns (r: Run)
    requires p.WellFormed() && AtInst(p, d) && InRange(p, q) && ReachableBlock(p, q.block) && !Dominates(p, d, q)
    ensures IsRun(p, r) && r.at == q && !Executed(r, d)
  {
    var t :| IsTrailTo(p, t, p.entry, q.block);
    if d.block == q.block {
      r := FirstEntry(p, t);
    } else if !BlockDominates(p, d.block, q.block) {
      t :| IsTrailTo(p, t, p.entry, q.block) && t.Avoids(d.block);
      r := Follow(p, Enter(Pos(p.entry, 0), map[]), t, d.block);
    } else {
      PrefixReachable(p, t, d.block);
      r := UnwindAround(p, d.block, q.block);
    }
    r := Straight(p, r, q.idx);
  }

  /** The dominance answer is exact at every reachable point. */
  lemma DominanceExact(p: Cfg, d: Pos, q: Pos)
    requires p.WellFormed() && AtInst(p, d) && InRange(p, q) && ReachablePos(p, q)
    ensures Dominates(p, d, q) <==> AlwaysExecuted(p, d, q)
  {
    var r :| IsRun(p, r) && r.at == q;
    var t := RunTrail(p, r);
    if Dominates(p, d, q) {
      forall r | IsRun(p, r) && r.at == q && !Executed(r, d) ensures false {
        MissedRefutes(p, d, q, r);
      }
    } else {
      var miss := DominatesComplete(p, d, q);
    }
  }
}

/** The dominance query with its per-block memo of what an unwind reaches. */
module PointDominanceQuery {
  import opened Wrappers
  import opened Program
  import opened Trails
  import opened Reachability
  import opened Dominance

  /** For each reachable block its dominators, itself included: what a dominator tree answers. */
  ghost predicate DominatorsOk(p: Cfg, dominators: map<BlockId, set<BlockId>>) {
    && (forall b :: b in dominators <==> b in p.blocks && ReachableBlock(p, b))
    && (forall b, d :: b in dominators ==> (d in dominators[b] <==> BlockDominates(p, d, b)))
  }

  function UnwindSuccessors(p: Cfg, b: BlockId): set<BlockId> {
    set e | e in p.edges && p.edges[e].source == b && IsUnwind(p.edges[e]) && p.edges[e].target != b :: p.edges[e].target
  }

  lemma UnwindReachesBy(p: Cfg, b: BlockId, to: BlockId)
    ensures Reaches(p, UnwindSuccessors(p, b), Some(b), to) <==> UnwindReaches(p, b, to)
  {
    if Reaches(p, UnwindSuccessors(p, b), Some(b), to) {
      var t: Trail :| IsTrail(p, t) && t.at == to && t.First() in UnwindSuccessors(p, b) && t.Avoids(b);
      assert UnwindSuccessor(p, b, t.First());
    }
    if UnwindReaches(p, b, to) {
      var t: Trail :| IsTrail(p, t) && t.at == to && t.Avoids(b) && UnwindSuccessor(p, b, t.First());
      assert t.First() in UnwindSuccessors(p, b);
    }
  }

  function FirstUnwindPoint(p: Cfg, b: BlockId): (r: Option<nat>)
    ensures r == FirstUnwind(p, b)
  {
    if exists e :: e in p.edges && p.edges[e].source == b && IsUnwind(p.edges[e]) then FirstThrow(p, b, 0) else None
  }

  class PointDominance {
    const p: Cfg
    const dominators: map<BlockId, set<BlockId>>
    const firstUnwind: map<BlockId, Option<nat>>
    var unwindReach: map<BlockId, set<BlockId>>

    ghost predicate Valid()
      reads this
    {
      && p.WellFormed() && DominatorsOk(p, dominators)
      && firstUnwind.Keys == p.blocks.Keys && (forall b :: b in firstUnwind ==> firstUnwind[b] == FirstUnwind(p, b))
      && (forall b, x :: b in unwindReach ==> (x in unwindReach[b] <==> UnwindReaches(p, b, x)))
    }

    constructor (p: Cfg, dominators: map<BlockId, set<BlockId>>)
      requires p.WellFormed() && DominatorsOk(p, dominators)
      ensures Valid() && this.p == p && this.dominators == dominators
    {
      this.p, this.dominators := p, dominators;
      firstUnwind := map b | b in p.blocks :: FirstUnwindPoint(p, b);
      unwindReach := map[];
    }

    predicate IsReachable(b: BlockId) { b in dominators }

    /** The blocks an unwind out of `b` reaches without re-entering it, computed once per block. */
    method AfterUnwind(b: BlockId) returns (reached: set<BlockId>)
      requires Valid() && b in p.blocks
      modifies this`unwindReach
      ensures Valid() && forall x :: x in reached <==> UnwindReaches(p, b, x)
      ensures unwindReach == if b in old(unwindReach) then old(unwindReach) else old(unwindReach)[b := reached]
    {
      hide UnwindReaches, DominatorsOk, FirstUnwind;
      if b !in unwindReach {
        var found := Reach(p, UnwindSuccessors(p, b), Some(b));
        forall x ensures x in found <==> UnwindReaches(p, b, x) {
          UnwindReachesBy(p, b, x);
        }
        unwindReach := unwindReach[b := found];
      }
      reached := unwindReach[b];
    }

    /** Whether every execution reaching `q` has executed `d`. */
    method Query(d: Pos, q: Pos) returns (answer: bool)
      requires Valid() && d.block in p.blocks && q.block in p.blocks
      modifies this`unwindReach
      ensures Valid() && answer == Dominates(p, d, q)
    {
      if d.block == q.block {
        return d.idx < q.idx;
      }
      if !(q.block in dominators && d.block in dominators[q.block]) {
        return false;
      }
      var first := firstUnwind[d.block];
      if first.None? || d.idx < first.value {
        return true;
      }
      var reached := AfterUnwind(d.block);
      return q.block !in reached;
    }
  }

  /** The dominators of every reachable block, straight from their definition by paths. */
  method ComputeDominators(p: Cfg) returns (dominators: map<BlockId, set<BlockId>>)
    requires p.WellFormed()
    ensures DominatorsOk(p, dominators)
  {
    var reached := Reach(p, {p.entry}, None);
    var without: map<BlockId, set<BlockId>> := map[];
    for d := 0 to p.bound
      invariant without.Keys == set x | x in p.blocks && x < d
      invariant forall x, b {:trigger b in without[x]} :: x in without ==>
                  (b in without[x] <==> Reaches(p, {p.entry}, Some(x), b))
    {
      if d in p.blocks {
        var around := Reach(p, {p.entry}, Some(d));
        without := without[d := around];
      }
    }
    dominators := map b | b in reached :: set d | d in p.blocks && (d == b || b !in without[d]);
    DominatorsMeaning(p, reached, without, dominators);
  }

  lemma DominatorsMeaning(p: Cfg, reached: set<BlockId>, without: map<BlockId, set<BlockId>>,
                          dominators: map<BlockId, set<BlockId>>)
    requires p.WellFormed() && without.Keys == p.blocks.Keys
    requires forall b :: b in reached <==> Reaches(p, {p.entry}, None, b)
    requires forall x, b {:trigger b in without[x]} :: x in without ==>
               (b in without[x] <==> Reaches(p, {p.entry}, Some(x), b))
    requires dominators.Keys == reached
    requires forall b, d {:trigger d in dominators[b]} :: b in dominators ==>
               (d in dominators[b] <==> d in p.blocks && (d == b || b !in without[d]))
    ensures DominatorsOk(p, dominators)
  {
    forall b ensures b in dominators <==> b in p.blocks && ReachableBlock(p, b) {
      ReachableInside(p, b);
    }
    forall b, d | b in dominators ensures d in dominators[b] <==> BlockDominates(p, d, b) {
      DominatesWithout(p, d, b);
    }
  }

  lemma ReachableInside(p: Cfg, b: BlockId)
    requires p.WellFormed()
    ensures Reaches(p, {p.entry}, None, b) <==> b in p.blocks && ReachableBlock(p, b)
  {
    ReachesByTrail(p, None, b);
    if ReachableBlock(p, b) {
      var t :| IsTrailTo(p, t, p.entry, b);
      TrailInside(p, t);
    }
  }

  /** A block dominates a reachable one exactly when removing it cuts the other off. */
  lemma DominatesWithout(p: Cfg, d: BlockId, b: BlockId)
    requires p.WellFormed() && Reaches(p, {p.entry}, None, b)
    ensures BlockDominates(p, d, b) <==> d in p.blocks && (d == b || !Reaches(p, {p.entry}, Some(d), b))
  {
    ReachesByTrail(p, None, b);
    ReachesByTrail(p, Some(d), b);
    var t :| IsTrailTo(p, t, p.entry, b);
    TrailInside(p, t);
    if d !in p.blocks {
      AvoidsOutside(p, t, d);
    }
  }

  lemma ReachesByTrail(p: Cfg, avoid: Option<BlockId>, b: BlockId)
    ensures Reaches(p, {p.entry}, avoid, b) <==>
              exists t :: IsTrailTo(p, t, p.entry, b) && (avoid.Some? ==> t.Avoids(avoid.value))
  {
    if Reaches(p, {p.entry}, avoid, b) {
      var t: Trail :| IsTrail(p, t) && t.at == b && t.First() in {p.entry} && (avoid.Some? ==> t.Avoids(avoid.value));
      assert IsTrailTo(p, t, p.entry, b);
    }
    if exists t :: IsTrailTo(p, t, p.entry, b) && (avoid.Some? ==> t.Avoids(avoid.value)) {
      var t :| IsTrailTo(p, t, p.entry, b) && (avoid.Some? ==> t.Avoids(avoid.value));
      assert IsTrail(p, t) && t.First() in {p.entry};
    }
  }

  lemma {:induction false} TrailInside(p: Cfg, t: Trail)
    requires p.WellFormed() && IsTrail(p, t) && t.First() == p.entry
    ensures t.at in p.blocks
  {
  }

  lemma {:induction false} AvoidsOutside(p: Cfg, t: Trail, d: BlockId)
    requires p.WellFormed() && IsTrail(p, t) && t.First() == p.entry && d !in p.blocks
    ensures t.Avoids(d)
  {
    TrailInside(p, t);
    if t.To? {
      AvoidsOutside(p, t.prev, d);
    }
  }
}
