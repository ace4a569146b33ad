/** Dead-code analysis: the needed-set worklist, what it lists, and what deleting the list changes. */
module DeadCode {
  import opened Wrappers
  import opened Program
  import opened Pruning
  import opened Backward
  import opened BackwardSolve
  import opened Trails
  import opened Reachability

  /** Instructions that count whatever is live: an effect, a throw, or an observer. */
  function ForcedBy(p: Cfg, observed: set<Pos>): Forced {
    set b, i | b in p.blocks && 0 <= i < |p.blocks[b]|
               && (p.blocks[b][i].effectful || p.blocks[b][i].mayUnwind || Pos(b, i) in observed) :: Pos(b, i)
  }

  ghost function DeadSet(p: Cfg, seeds: Seeds, forced: Forced): set<Pos> {
    set b, i | b in p.blocks && 0 <= i < |Insts(p, b)| && !Kept(p, seeds, forced, Pos(b, i)) :: Pos(b, i)
  }

  /** What is live at the end of `b`, and what an unwind out of it reads. */
  method ExitsOf(p: Cfg, b: BlockId, facts: Facts, seeds: Seeds) returns (out: set<Var>, unwind: set<Var>)
    requires p.WellFormed() && b in p.blocks && facts.Keys == p.blocks.Keys
    ensures out == OutOf(p, seeds, facts, b) && unwind == FlowBack(p, facts, b, true)
  {
    out, unwind := Elems(Seed(seeds, b)), {};
    var row := p.out[b];
    for i := 0 to |row|
      invariant out == Elems(Seed(seeds, b)) + FlowAlong(p, facts, row[..i], false)
      invariant unwind == FlowAlong(p, facts, row[..i], true)
    {
      var edge := p.edges[row[i]];
      FlowStep(p, facts, row, i, false);
      FlowStep(p, facts, row, i, true);
      if Departs(p, edge) {
        unwind := unwind + facts[edge.target];
      } else {
        out := out + facts[edge.target];
      }
    }
    assert row[..|row|] == row;
  }

  /** The unneeded instructions among those from `i` on, last one first. */
  ghost predicate ListsFrom(p: Cfg, forced: Forced, b: BlockId, i: nat, end: set<Var>, unwind: set<Var>, dead: seq<nat>) {
    && (forall k: nat {:trigger k in dead} :: k in dead <==>
          i <= k < |Insts(p, b)| && !Needed(Insts(p, b)[k], Pos(b, k) in forced, Before(p, forced, b, k + 1, end, unwind)))
    && forall k, j :: 0 <= k < j < |dead| ==> dead[j] < dead[k]
  }

  lemma ListsNext(p: Cfg, forced: Forced, b: BlockId, i: nat, end: set<Var>, unwind: set<Var>, dead: seq<nat>)
    requires i < |Insts(p, b)| && ListsFrom(p, forced, b, i + 1, end, unwind, dead)
    ensures var needed := Needed(Insts(p, b)[i], Pos(b, i) in forced, Before(p, forced, b, i + 1, end, unwind));
            ListsFrom(p, forced, b, i, end, unwind, if needed then dead else dead + [i])
  {
    hide Needed, Before;
    assert forall k :: 0 <= k < |dead| ==> dead[k] in dead;
  }

  /** Replays `b` backward from `end`; the instructions that are not needed are reported last first. */
  method Replay(p: Cfg, forced: Forced, b: BlockId, end: set<Var>, unwind: set<Var>)
    returns (live: set<Var>, dead: seq<nat>)
    ensures live == Before(p, forced, b, 0, end, unwind) && ListsFrom(p, forced, b, 0, end, unwind, dead)
  {
    var insts := Insts(p, b);
    var i := |insts|;
    live, dead := end, [];
    while i > 0
      invariant 0 <= i <= |insts|
      invariant live == Before(p, forced, b, i, end, unwind) && ListsFrom(p, forced, b, i, end, unwind, dead)
    {
      i := i - 1;
      ListsNext(p, forced, b, i, end, unwind, dead);
      if Needed(insts[i], Pos(b, i) in forced, live) {
        live := StepBackward(live, insts[i], unwind);
      } else {
        dead := dead + [i];
      }
    }
  }

  /** The least fixpoint of liveness in which only needed instructions read. */
  method NeededLiveIn(p: Cfg, seeds: Seeds, forced: Forced) returns (liveIn: Facts)
    requires p.WellFormed()
    ensures liveIn.Keys == p.blocks.Keys
    ensures Justified(p, seeds, forced, liveIn) && Closed(p, seeds, forced, liveIn)
  {
    var worklist := NodeIds(p, p.bound);
    var queued := Elems(worklist);
    liveIn := map b | b in p.blocks :: {};
    while worklist != []
      invariant Bounded(p, seeds, liveIn) && Justified(p, seeds, forced, liveIn)
      invariant Listed(p, queued, worklist)
      invariant ClosedUnless(p, seeds, forced, liveIn, queued)
      decreases AllPairs(p, seeds) - Pairs(liveIn), |worklist|
    {
      var b := worklist[|worklist| - 1];
      PopListed(p, queued, worklist);
      VisitProgress(p, seeds, forced, liveIn, b, queued);
      worklist, queued := worklist[..|worklist| - 1], queued - {b};
      var out, unwind := ExitsOf(p, b, liveIn, seeds);
      var live, _ := Replay(p, forced, b, out, unwind);
      var grown := liveIn[b] + live;
      if grown != liveIn[b] {
        liveIn := liveIn[b := grown];
        queued, worklist := EnqueueSources(p, b, queued, worklist);
      }
    }
  }

  datatype DeadCode = DeadCode(instructions: seq<Pos>, unreachableBlocks: seq<BlockId>)

  predicate Precedes(a: Pos, b: Pos) {
    a.block < b.block || (a.block == b.block && a.idx < b.idx)
  }

  /** The points of `dead`, which lists one block last first, in program order. */
  function PointsOf(b: BlockId, dead: seq<nat>): (points: seq<Pos>)
    ensures |points| == |dead|
    ensures forall i :: 0 <= i < |dead| ==> points[i] == Pos(b, dead[|dead| - 1 - i])
  {
    seq(|dead|, i requires 0 <= i < |dead| => Pos(b, dead[|dead| - 1 - i]))
  }

  /** What the facts say of an instruction is what the paths say. */
  lemma NeededIsKept(p: Cfg, seeds: Seeds, forced: Forced, facts: Facts, a: Pos)
    requires p.WellFormed() && ForcesThrows(p, forced) && Justified(p, seeds, forced, facts)
    requires Closed(p, seeds, forced, facts) && InRange(p, a) && AtInst(p, a)
    ensures Needed(InstAt(p, a), a in forced, LiveBefore(p, seeds, forced, facts, After(a))) <==>
            Kept(p, seeds, forced, a)
  {
    forall d | d in InstAt(p, a).defs
      ensures d in LiveBefore(p, seeds, forced, facts, After(a)) <==> Matters(p, seeds, forced, After(a), d)
    {
      FactsExact(p, seeds, forced, facts, After(a), d);
    }
  }

  predicate Ordered(points: seq<Pos>) {
    forall i, j :: 0 <= i < j < |points| ==> Precedes(points[i], points[j])
  }

  /** `points` lists the members of `all` that lie in the blocks `ids`, in program order. */
  ghost predicate Collected(points: seq<Pos>, ids: seq<BlockId>, all: set<Pos>) {
    Ordered(points) && forall a: Pos :: a in points <==> a.block in ids && a in all
  }

  lemma CollectBlock(points: seq<Pos>, more: seq<Pos>, ids: seq<BlockId>, b: BlockId, all: set<Pos>)
    requires Collected(points, ids, all) && Collected(more, [b], all) && forall x :: x in ids ==> x < b
    ensures Collected(points + more, ids + [b], all)
  {
    assert forall i :: 0 <= i < |points| ==> points[i] in points;
    assert forall i :: 0 <= i < |more| ==> more[i] in more;
  }

  /** Exactly the instructions that are not kept, in block order and ascending within a block. */
  method DeadInstructions(p: Cfg, seeds: Seeds, forced: Forced) returns (points: seq<Pos>)
    requires p.WellFormed() && ForcesThrows(p, forced)
    ensures Elems(points) == DeadSet(p, seeds, forced) && Ordered(points)
  {
    var liveIn := NeededLiveIn(p, seeds, forced);
    var ids := NodeIds(p, p.bound);
    ghost var all := DeadSet(p, seeds, forced);
    points := [];
    for k := 0 to |ids|
      invariant Collected(points, ids[..k], all)
    {
      var more := DeadInBlock(p, seeds, forced, liveIn, ids[k]);
      CollectBlock(points, more, ids[..k], ids[k], all);
      points := points + more;
      TakeNext(ids, k);
    }
    TakeAll(ids);
    CollectedAll(p, seeds, forced, points);
  }

  lemma CollectedAll(p: Cfg, seeds: Seeds, forced: Forced, points: seq<Pos>)
    requires p.WellFormed() && Collected(points, NodeIds(p, p.bound), DeadSet(p, seeds, forced))
    ensures Elems(points) == DeadSet(p, seeds, forced) && Ordered(points)
  {
  }

  method DeadInBlock(p: Cfg, seeds: Seeds, forced: Forced, facts: Facts, b: BlockId) returns (points: seq<Pos>)
    requires p.WellFormed() && ForcesThrows(p, forced) && facts.Keys == p.blocks.Keys && b in p.blocks
    requires Justified(p, seeds, forced, facts) && Closed(p, seeds, forced, facts)
    ensures Collected(points, [b], DeadSet(p, seeds, forced))
  {
    var out, unwind := ExitsOf(p, b, facts, seeds);
    var _, dead := Replay(p, forced, b, out, unwind);
    BlockPoints(p, seeds, forced, facts, b, dead);
    points := PointsOf(b, dead);
  }

  lemma BlockPoints(p: Cfg, seeds: Seeds, forced: Forced, facts: Facts, b: BlockId, dead: seq<nat>)
    requires p.WellFormed() && ForcesThrows(p, forced) && Justified(p, seeds, forced, facts)
    requires Closed(p, seeds, forced, facts) && b in p.blocks
    requires ListsFrom(p, forced, b, 0, OutOf(p, seeds, facts, b), FlowBack(p, facts, b, true), dead)
    ensures Collected(PointsOf(b, dead), [b], DeadSet(p, seeds, forced))
  {
    var points := PointsOf(b, dead);
    forall a: Pos | a.block == b && AtInst(p, a) ensures a in points <==> !Kept(p, seeds, forced, a) {
      NeededIsKept(p, seeds, forced, facts, a);
      if a.idx in dead {
        var i :| 0 <= i < |dead| && dead[i] == a.idx;
        assert points[|dead| - 1 - i] == a;
      }
    }
    forall a | a in points ensures a.block == b && AtInst(p, a) {
      var i :| 0 <= i < |points| && points[i] == a;
      var j := dead[|dead| - 1 - i];
      assert j in dead && a == Pos(b, j);
    }
  }

  /** An instruction without an effect, a throw or an observer, that defines something. */
  predicate Idle(p: Cfg, observed: set<Pos>, a: Pos) {
    && InRange(p, a) && AtInst(p, a) && a !in observed
    && !InstAt(p, a).effectful && !InstAt(p, a).mayUnwind && InstAt(p, a).defs != []
  }

  /** The listed instructions are the idle ones none of whose definitions matters, where a read counts when the
      instruction that reads is not idle or defines something that matters. */
  lemma DeadExact(p: Cfg, seeds: Seeds, observed: set<Pos>, forced: Forced, a: Pos)
    requires forall x :: x in forced <==>
               InRange(p, x) && AtInst(p, x) && (InstAt(p, x).effectful || InstAt(p, x).mayUnwind || x in observed)
    ensures a in DeadSet(p, seeds, ForcedBy(p, observed)) <==>
              Idle(p, observed, a) && forall d :: d in InstAt(p, a).defs ==> !Matters(p, seeds, forced, After(a), d)
  {
    assert forced == ForcedBy(p, observed) by {
      forall x ensures x in forced <==> x in ForcedBy(p, observed) {
      }
    }
  }

  /** Nothing reads any definition of the instruction at `a`, and no seed names one. */
  ghost predicate Unread(p: Cfg, seeds: Seeds, a: Pos)
    requires AtInst(p, a)
  {
    forall d :: d in InstAt(p, a).defs ==> (forall x :: !UsedAt(p, d, x)) && forall b :: b in seeds ==> d !in seeds[b]
  }

  lemma UnreadIsDead(p: Cfg, seeds: Seeds, observed: set<Pos>, a: Pos)
    requires Idle(p, observed, a) && Unread(p, seeds, a)
    ensures a in DeadSet(p, seeds, ForcedBy(p, observed))
  {
    var forced := ForcedBy(p, observed);
    forall d | d in InstAt(p, a).defs ensures !Matters(p, seeds, forced, After(a), d) {
      forall c | IsChain(p, seeds, forced, c) && c.v == d ensures false {
        UnreadNeverMatters(p, seeds, forced, c);
      }
    }
    DeadExact(p, seeds, observed, forced, a);
  }

  lemma DeadIsIdle(p: Cfg, seeds: Seeds, observed: set<Pos>, a: Pos)
    requires a in DeadSet(p, seeds, ForcedBy(p, observed))
    ensures Idle(p, observed, a)
  {
    DeadExact(p, seeds, observed, ForcedBy(p, observed), a);
  }

  /** Everything dead in `p`: the instructions no kept instruction needs, and the blocks no path enters. */
  method Compute(p: Cfg, seeds: Seeds, observed: set<Pos>) returns (dead: DeadCode)
    requires p.WellFormed()
    ensures Elems(dead.instructions) == DeadSet(p, seeds, ForcedBy(p, observed)) && Ordered(dead.instructions)
    ensures forall a :: a in dead.instructions ==> Idle(p, observed, a)
    ensures forall a :: Idle(p, observed, a) && Unread(p, seeds, a) ==> a in dead.instructions
    ensures forall b :: b in dead.unreachableBlocks <==> b in p.blocks && !ReachableBlock(p, b)
  {
    var instructions := DeadInstructions(p, seeds, ForcedBy(p, observed));
    var unreachable := Unreachable(p);
    dead := DeadCode(instructions, unreachable);
    ghost var all := DeadSet(p, seeds, ForcedBy(p, observed));
    forall a | a in all ensures Idle(p, observed, a) {
      DeadIsIdle(p, seeds, observed, a);
    }
    forall a | Idle(p, observed, a) && Unread(p, seeds, a) ensures a in all {
      UnreadIsDead(p, seeds, observed, a);
    }
    assert forall a :: a in instructions <==> a in all;
  }

  method Unreachable(p: Cfg) returns (blocks: seq<BlockId>)
    requires p.WellFormed()
    ensures forall b :: b in blocks <==> b in p.blocks && !ReachableBlock(p, b)
  {
    var reached := Reach(p, {p.entry}, None);
    forall b ensures b in reached <==> ReachableBlock(p, b) {
      ReachesFromEntry(p, b);
    }
    blocks := Without(NodeIds(p, p.bound), reached);
  }

  function Without(ids: seq<BlockId>, gone: set<BlockId>): (rest: seq<BlockId>)
    ensures forall b :: b in rest <==> b in ids && b !in gone
  {
    if ids == [] then []
    else Without(ids[..|ids| - 1], gone) + if ids[|ids| - 1] in gone then [] else [ids[|ids| - 1]]
  }

  lemma ReachesFromEntry(p: Cfg, b: BlockId)
    ensures Reaches(p, {p.entry}, None, b) <==> ReachableBlock(p, b)
  {
    if ReachableBlock(p, b) {
      var t :| IsTrailTo(p, t, p.entry, b);
      assert IsTrail(p, t) && t.First() in {p.entry};
    }
    if Reaches(p, {p.entry}, None, b) {
      var t: Trail :| IsTrail(p, t) && t.at == b && t.First() in {p.entry};
      assert IsTrailTo(p, t, p.entry, b);
    }
  }
}

/** What deleting the listed instructions changes: nothing a run can observe. */
module DeadCodeSoundness {
  import opened Wrappers
  import opened Program
  import opened Pruning
  import opened Backward
  import opened DeadCode
  import opened Effects

  ghost function MattersAt(p: Cfg, seeds: Seeds, forced: Forced): (Pos, Var) -> bool {
    (a, v) => Matters(p, seeds, forced, a, v)
  }

  /** Deleting what is not kept loses nothing that matters, at any position. */
  lemma DeadKeepsLive(p: Cfg, seeds: Seeds, forced: Forced)
    requires p.WellFormed() && ForcesThrows(p, forced)
    ensures Quiet(p, DeadSet(p, seeds, forced))
    ensures KeepsLive(p, DeadSet(p, seeds, forced), MattersAt(p, seeds, forced))
  {
    var dead, live := DeadSet(p, seeds, forced), MattersAt(p, seeds, forced);
    forall a, v | InRange(p, a) && AtInst(p, a) && live(After(a), v)
      ensures (a in dead ==> live(a, v) && v !in InstAt(p, a).defs) && (v !in InstAt(p, a).defs ==> live(a, v))
    {
      if v !in InstAt(p, a).defs {
        MattersMove(p, seeds, forced, a, After(a), v);
      }
    }
    forall a, v | InRange(p, a) && AtInst(p, a) && a !in dead && v in InstAt(p, a).uses ensures live(a, v) {
      MattersRead(p, seeds, forced, a, v);
    }
    forall a, b, v | InRange(p, a) && Crosses(p, a, b) && live(b, v) ensures live(a, v) {
      MattersMove(p, seeds, forced, a, b, v);
    }
  }

  /** Deleting every listed instruction at once: each run has a counterpart that stops at the same surviving
      position, where the next surviving instruction reads the same values and, at a block's end, every seeded
      variable has the same value. Unwinds are runs like any other. */
  lemma DeletionUnobserved(p: Cfg, seeds: Seeds, observed: set<Pos>, sem: Semantics, r: Run)
    requires p.WellFormed() && p.Contracts() && IsRun(p, r)
    ensures var dead := DeadSet(p, seeds, ForcedBy(p, observed));
            var q := PruneRun(p, dead, r);
            var s, t := StoreOf(p, sem, r), StoreOf(Prune(p, dead), sem, q);
            && IsRun(Prune(p, dead), q) && InRange(p, r.at) && q.at == Shift(p, dead, r.at)
            && (AtInst(p, r.at) && r.at !in dead ==>
                  && AtInst(Prune(p, dead), q.at) && InstAt(Prune(p, dead), q.at) == InstAt(p, r.at)
                  && forall v :: v in InstAt(p, r.at).uses ==> Read(s, v) == Read(t, v))
            && (r.at.idx == |Insts(p, r.at.block)| && r.at.block in seeds ==>
                  forall v :: v in seeds[r.at.block] ==> Read(s, v) == Read(t, v))
  {
    var forced := ForcedBy(p, observed);
    var dead, live := DeadSet(p, seeds, forced), MattersAt(p, seeds, forced);
    DeadKeepsLive(p, seeds, forced);
    PruneRuns(p, dead, r);
    PruneSimulates(p, dead, live, sem, r);
    if AtInst(p, r.at) && r.at !in dead {
      SurvivorAt(p, dead, r.at);
      forall v | v in InstAt(p, r.at).uses ensures live(r.at, v) {
        MattersRead(p, seeds, forced, r.at, v);
      }
    }
    if r.at.idx == |Insts(p, r.at.block)| {
      forall v | v in Seed(seeds, r.at.block) ensures live(r.at, v) {
        MattersSeed(p, seeds, forced, r.at, v);
      }
    }
  }

  /** Deletion leaves every effect alone: along each run the noticed steps are the same, in the same order, on the same
      inputs, in the run and in its counterpart. */
  lemma {:induction false} EffectsKept(p: Cfg, seeds: Seeds, observed: set<Pos>, sem: Semantics, r: Run)
    requires p.WellFormed() && p.Contracts() && IsRun(p, r)
    ensures var dead := DeadSet(p, seeds, ForcedBy(p, observed));
            EffectsOf(Prune(p, dead), sem, ShiftAll(p, dead, observed), PruneRun(p, dead, r)) == EffectsOf(p, sem, observed, r)
  {
    hide DeadSet, ForcedBy, ShiftAll, Prune, StoreOf, ReadAll, Cfg.WellFormed, Noticed;
    if r.Step? {
      var dead := DeadSet(p, seeds, ForcedBy(p, observed));
      var prev := r.prev;
      EffectsKept(p, seeds, observed, sem, prev);
      DeletionUnobserved(p, seeds, observed, sem, prev);
      DeletionUnobserved(p, seeds, observed, sem, r);
      if Execs(p, prev.at, r.at) {
        if prev.at in dead {
          DeadNotNoticed(p, seeds, observed, prev.at);
        } else {
          SurvivorAt(p, dead, prev.at);
          SurvivorNoticed(p, dead, observed, prev.at);
          SameInputs(InstAt(p, prev.at), StoreOf(p, sem, prev), StoreOf(Prune(p, dead), sem, PruneRun(p, dead, prev)));
        }
      }
    }
  }

  lemma SameInputs(inst: Inst, s: Store, t: Store)
    requires forall v :: v in inst.uses ==> Read(s, v) == Read(t, v)
    ensures ReadAll(s, inst.uses) == ReadAll(t, inst.uses)
  {
  }

  lemma DeadNotNoticed(p: Cfg, seeds: Seeds, observed: set<Pos>, a: Pos)
    requires a in DeadSet(p, seeds, ForcedBy(p, observed))
    ensures AtInst(p, a) && !Noticed(p, observed, a)
  {
    DeadIsIdle(p, seeds, observed, a);
  }

  lemma SurvivorNoticed(p: Cfg, dead: set<Pos>, observed: set<Pos>, a: Pos)
    requires InRange(p, a) && AtInst(p, a) && a !in dead
    requires AtInst(Prune(p, dead), Shift(p, dead, a)) && InstAt(Prune(p, dead), Shift(p, dead, a)) == InstAt(p, a)
    ensures Noticed(Prune(p, dead), ShiftAll(p, dead, observed), Shift(p, dead, a)) == Noticed(p, observed, a)
  {
    if Shift(p, dead, a) in ShiftAll(p, dead, observed) {
      var y :| y in observed && y !in dead && y.idx <= |Insts(p, y.block)| && Shift(p, dead, y) == Shift(p, dead, a);
      ShiftApart(p, dead, y, a);
    }
  }

  /** And the pruned program does nothing the original could not. */
  lemma DeletionAddsNothing(p: Cfg, seeds: Seeds, observed: set<Pos>, q: Run) returns (r: Run)
    requires p.WellFormed() && IsRun(Prune(p, DeadSet(p, seeds, ForcedBy(p, observed))), q)
    ensures IsRun(p, r) && PruneRun(p, DeadSet(p, seeds, ForcedBy(p, observed)), r) == q
  {
    DeadKeepsLive(p, seeds, ForcedBy(p, observed));
    r := PruneIsOnto(p, DeadSet(p, seeds, ForcedBy(p, observed)), q);
  }

  /** A reason for a variable to matter survives the deletion. */
  lemma {:induction false} ChainSurvives(p: Cfg, seeds: Seeds, forced: Forced, c: Chain)
    requires p.WellFormed() && ForcesThrows(p, forced) && IsChain(p, seeds, forced, c)
    ensures var dead := DeadSet(p, seeds, forced);
            Matters(Prune(p, dead), seeds, ShiftAll(p, dead, forced), Shift(p, dead, c.at), c.v)
  {
    hide Matters, DeadSet, ShiftAll, Shift, Prune;
    match c
    case SeedAt(a, v) => SeedSurvives(p, seeds, forced, a, v);
    case ReadAt(a, v) => ReadSurvives(p, seeds, forced, a, v, v);
    case Switch(a, v, rest) =>
      ChainSurvives(p, seeds, forced, rest);
      MattersBy(p, seeds, forced, rest);
      ReadSurvives(p, seeds, forced, a, v, rest.v);
    case Move(a, v, rest) =>
      ChainSurvives(p, seeds, forced, rest);
      MattersBy(p, seeds, forced, rest);
      MoveSurvives(p, seeds, forced, a, rest.at, v);
  }

  lemma MattersBy(p: Cfg, seeds: Seeds, forced: Forced, c: Chain)
    requires IsChain(p, seeds, forced, c)
    ensures Matters(p, seeds, forced, c.at, c.v)
  {
  }

  lemma SeedSurvives(p: Cfg, seeds: Seeds, forced: Forced, a: Pos, v: Var)
    requires InRange(p, a) && a.idx == |Insts(p, a.block)| && v in Seed(seeds, a.block)
    ensures var dead := DeadSet(p, seeds, forced);
            Matters(Prune(p, dead), seeds, ShiftAll(p, dead, forced), Shift(p, dead, a), v)
  {
    hide Matters, DeadSet, ShiftAll, Prefix;
    var dead := DeadSet(p, seeds, forced);
    MattersSeed(Prune(p, dead), seeds, ShiftAll(p, dead, forced), Shift(p, dead, a), v);
  }

  /** A read that counts still counts: by itself, or because it defines `d`, which still matters. */
  lemma ReadSurvives(p: Cfg, seeds: Seeds, forced: Forced, a: Pos, v: Var, d: Var)
    requires InRange(p, a) && AtInst(p, a) && v in InstAt(p, a).uses
    requires a in forced || InstAt(p, a).defs == [] || (d in InstAt(p, a).defs && Matters(p, seeds, forced, After(a), d))
    requires var dead := DeadSet(p, seeds, forced);
             || a in forced || InstAt(p, a).defs == []
             || Matters(Prune(p, dead), seeds, ShiftAll(p, dead, forced), Shift(p, dead, After(a)), d)
    ensures var dead := DeadSet(p, seeds, forced);
            Matters(Prune(p, dead), seeds, ShiftAll(p, dead, forced), Shift(p, dead, a), v)
  {
    hide Matters, Prefix;
    var dead := DeadSet(p, seeds, forced);
    assert a !in dead;
    hide DeadSet;
    SurvivorAt(p, dead, a);
    MattersRead(Prune(p, dead), seeds, ShiftAll(p, dead, forced), Shift(p, dead, a), v);
  }

  lemma MoveSurvives(p: Cfg, seeds: Seeds, forced: Forced, a: Pos, b: Pos, v: Var)
    requires p.WellFormed() && ForcesThrows(p, forced) && InRange(p, a) && InRange(p, b) && Next(p, a, b)
    requires Execs(p, a, b) ==> v !in InstAt(p, a).defs
    requires var dead := DeadSet(p, seeds, forced);
             Matters(Prune(p, dead), seeds, ShiftAll(p, dead, forced), Shift(p, dead, b), v)
    ensures var dead := DeadSet(p, seeds, forced);
            Matters(Prune(p, dead), seeds, ShiftAll(p, dead, forced), Shift(p, dead, a), v)
  {
    hide Matters, DeadSet, ShiftAll;
    var dead := DeadSet(p, seeds, forced);
    var q, f, at := Prune(p, dead), ShiftAll(p, dead, forced), Shift(p, dead, a);
    DeadKeepsLive(p, seeds, forced);
    PrefixGrows(p, dead, a.block, a.idx, |Insts(p, a.block)|);
    if Crosses(p, a, b) {
      CrossesKept(p, dead, a, b);
      MattersMove(q, seeds, f, at, b, v);
    } else if a !in dead {
      SurvivorAt(p, dead, a);
      MattersMove(q, seeds, f, at, After(at), v);
    }
  }

  /** One pass is enough: nothing that survives the deletion is dead afterwards. */
  lemma OnePassIsEnough(p: Cfg, seeds: Seeds, forced: Forced)
    requires p.WellFormed() && ForcesThrows(p, forced)
    ensures var dead := DeadSet(p, seeds, forced);
            DeadSet(Prune(p, dead), seeds, ShiftAll(p, dead, forced)) == {}
  {
    var dead := DeadSet(p, seeds, forced);
    var q, f := Prune(p, dead), ShiftAll(p, dead, forced);
    forall b, i | b in q.blocks && 0 <= i < |Insts(q, b)| ensures Kept(q, seeds, f, Pos(b, i)) {
      var k := SurvivorFrom(p, dead, b, |Insts(p, b)|, i);
      var a := Pos(b, k);
      SurvivorAt(p, dead, a);
      assert Kept(p, seeds, forced, a);
      if a !in forced && InstAt(p, a).defs != [] {
        var d :| d in InstAt(p, a).defs && Matters(p, seeds, forced, After(a), d);
        var c :| IsChain(p, seeds, forced, c) && c.at == After(a) && c.v == d;
        ChainSurvives(p, seeds, forced, c);
      }
    }
  }

  /** What the pruned program forces by itself, given where its observers now are, is what was forced before. */
  lemma ForcedAgain(p: Cfg, dead: set<Pos>, observed: set<Pos>)
    ensures ForcedBy(Prune(p, dead), ShiftAll(p, dead, observed)) == ShiftAll(p, dead, ForcedBy(p, observed))
  {
    var q := Prune(p, dead);
    forall a | a in ShiftAll(p, dead, ForcedBy(p, observed)) ensures a in ForcedBy(q, ShiftAll(p, dead, observed)) {
      var x :| x in ForcedBy(p, observed) && x !in dead && x.idx <= |Insts(p, x.block)| && a == Shift(p, dead, x);
      SurvivorAt(p, dead, x);
      assert q.blocks[a.block][a.idx] == p.blocks[x.block][x.idx];
    }
    forall a | a in ForcedBy(q, ShiftAll(p, dead, observed)) ensures a in ShiftAll(p, dead, ForcedBy(p, observed)) {
      ForcedFrom(p, dead, observed, a);
    }
  }

  lemma ForcedFrom(p: Cfg, dead: set<Pos>, observed: set<Pos>, a: Pos)
    requires a in ForcedBy(Prune(p, dead), ShiftAll(p, dead, observed))
    ensures a in ShiftAll(p, dead, ForcedBy(p, observed))
  {
    var k := SurvivorFrom(p, dead, a.block, |Insts(p, a.block)|, a.idx);
    var x := Pos(a.block, k);
    assert p.blocks[x.block][x.idx] == Prune(p, dead).blocks[a.block][a.idx];
    if a in ShiftAll(p, dead, observed) {
      var y :| y in observed && y !in dead && y.idx <= |Insts(p, y.block)| && a == Shift(p, dead, y);
      assert y.idx < |Insts(p, y.block)|;
      assert y in ForcedBy(p, observed);
    } else {
      assert x in ForcedBy(p, observed) && a == Shift(p, dead, x);
    }
  }

  /** Running the analysis again on what is left lists no instruction. */
  lemma SecondRunEmpty(p: Cfg, seeds: Seeds, observed: set<Pos>)
    requires p.WellFormed()
    ensures var dead := DeadSet(p, seeds, ForcedBy(p, observed)); var left := Prune(p, dead);
            DeadSet(left, seeds, ForcedBy(left, ShiftAll(p, dead, observed))) == {}
  {
    OnePassIsEnough(p, seeds, ForcedBy(p, observed));
    ForcedAgain(p, DeadSet(p, seeds, ForcedBy(p, observed)), observed);
  }
}
