/** What every backward worklist solve rests on: bounded facts, who sees a change, and one visit's progress. */
module BackwardSolve {
  import opened Wrappers
  import opened Program
  import opened Backward

  /** The live blocks below `n`, ascending. */
  function NodeIds(p: Cfg, n: nat): (ids: seq<BlockId>)
    ensures forall b :: b in ids <==> b in p.blocks && b < n
    ensures forall i, j :: 0 <= i < j < |ids| ==> ids[i] < ids[j]
  {
    if n == 0 then []
    else
      var below := NodeIds(p, n - 1);
      assert forall i :: 0 <= i < |below| ==> below[i] in below;
      below + if n - 1 in p.blocks then [n - 1] else []
  }

  function UsesOf(insts: seq<Inst>): set<Var> {
    if insts == [] then {} else UsesOf(insts[..|insts| - 1]) + Elems(insts[|insts| - 1].uses)
  }

  /** Every variable a fact can ever hold: what the blocks below `n` read, and their seeds. */
  function VarsBelow(p: Cfg, seeds: Seeds, n: nat): set<Var> {
    if n == 0 then {} else VarsBelow(p, seeds, n - 1) + UsesOf(Insts(p, n - 1)) + Elems(Seed(seeds, n - 1))
  }

  function Universe(p: Cfg, seeds: Seeds): set<Var> { VarsBelow(p, seeds, p.bound) }

  lemma {:induction false} UniverseCovers(p: Cfg, seeds: Seeds, n: nat, b: BlockId)
    requires b < n
    ensures UsesOf(Insts(p, b)) + Elems(Seed(seeds, b)) <= VarsBelow(p, seeds, n)
  {
    if b < n - 1 {
      UniverseCovers(p, seeds, n - 1, b);
    }
  }

  lemma {:induction false} UsesCover(insts: seq<Inst>, i: nat)
    requires i < |insts|
    ensures Elems(insts[i].uses) <= UsesOf(insts)
  {
    if i < |insts| - 1 {
      UsesCover(insts[..|insts| - 1], i);
    }
  }

  ghost function Pairs(facts: Facts): set<(BlockId, Var)> {
    set b, v | b in facts && v in facts[b] :: (b, v)
  }

  ghost function AllPairs(p: Cfg, seeds: Seeds): set<(BlockId, Var)> {
    set b, v | b in p.blocks && v in Universe(p, seeds) :: (b, v)
  }

  ghost predicate Bounded(p: Cfg, seeds: Seeds, facts: Facts) {
    facts.Keys == p.blocks.Keys && forall b {:trigger facts[b]} :: b in facts ==> facts[b] <= Universe(p, seeds)
  }

  lemma {:induction false} BeforeBounded(p: Cfg, seeds: Seeds, forced: Forced, b: BlockId, i: nat, out: set<Var>,
                                         unwind: set<Var>)
    requires i <= |Insts(p, b)| && b < p.bound
    requires out <= Universe(p, seeds) && unwind <= Universe(p, seeds)
    ensures Before(p, forced, b, i, out, unwind) <= Universe(p, seeds)
    decreases |Insts(p, b)| - i
  {
    if i < |Insts(p, b)| {
      BeforeBounded(p, seeds, forced, b, i + 1, out, unwind);
      UsesCover(Insts(p, b), i);
      UniverseCovers(p, seeds, p.bound, b);
    }
  }

  lemma FlowStep(p: Cfg, facts: Facts, row: seq<EdgeId>, i: nat, departing: bool)
    requires i < |row| && row[i] in p.edges
    ensures FlowAlong(p, facts, row[..i + 1], departing) ==
            FlowAlong(p, facts, row[..i], departing)
            + if Departs(p, p.edges[row[i]]) == departing then LiveIn(facts, p.edges[row[i]].target) else {}
  {
    assert row[..i + 1][..i] == row[..i];
  }

  lemma {:induction false} FlowUnchanged(p: Cfg, facts: Facts, b: BlockId, live: set<Var>, row: seq<EdgeId>, departing: bool)
    requires forall e :: e in row && e in p.edges ==> p.edges[e].target != b
    ensures FlowAlong(p, facts[b := live], row, departing) == FlowAlong(p, facts, row, departing)
  {
    if row != [] {
      FlowUnchanged(p, facts, b, live, row[..|row| - 1], departing);
    }
  }

  function SourcesOf(p: Cfg, row: seq<EdgeId>): set<BlockId> {
    set e | e in row && e in p.edges :: p.edges[e].source
  }

  function Predecessors(p: Cfg, b: BlockId): set<BlockId> {
    SourcesOf(p, if b in p.inc then p.inc[b] else [])
  }

  /** Changing the facts of one block matters only to its predecessors. */
  lemma OnlyPredecessorsSee(p: Cfg, seeds: Seeds, forced: Forced, facts: Facts, b: BlockId, live: set<Var>, x: BlockId)
    requires p.WellFormed() && x in p.blocks && x !in Predecessors(p, b)
    ensures LiveBefore(p, seeds, forced, facts[b := live], Pos(x, 0)) == LiveBefore(p, seeds, forced, facts, Pos(x, 0))
  {
    forall e | e in OutRow(p, x) && e in p.edges ensures p.edges[e].target != b {
      assert e in p.inc[p.edges[e].target];
    }
    FlowUnchanged(p, facts, b, live, OutRow(p, x), false);
    FlowUnchanged(p, facts, b, live, OutRow(p, x), true);
  }

  /** Every block that is not queued is closed. */
  ghost predicate ClosedUnless(p: Cfg, seeds: Seeds, forced: Forced, facts: Facts, queued: set<BlockId>) {
    forall b {:trigger ClosedAt(p, seeds, forced, facts, b)} ::
      b in p.blocks && b !in queued ==> ClosedAt(p, seeds, forced, facts, b)
  }

  /** Replaying `b` grows its facts; afterwards only its predecessors can be open again. */
  lemma VisitCloses(p: Cfg, seeds: Seeds, forced: Forced, facts: Facts, b: BlockId, queued: set<BlockId>)
    requires p.WellFormed() && b in p.blocks && b in facts && ClosedUnless(p, seeds, forced, facts, queued)
    ensures var grown := facts[b] + LiveBefore(p, seeds, forced, facts, Pos(b, 0));
            && (grown == facts[b] ==> ClosedUnless(p, seeds, forced, facts, queued - {b}))
            && ClosedUnless(p, seeds, forced, facts[b := grown], queued - {b} + Predecessors(p, b))
  {
    var grown := facts[b] + LiveBefore(p, seeds, forced, facts, Pos(b, 0));
    forall x | x in p.blocks && x !in queued - {b} + Predecessors(p, b)
      ensures ClosedAt(p, seeds, forced, facts[b := grown], x)
    {
      assert x != b ==> ClosedAt(p, seeds, forced, facts, x);
      OnlyPredecessorsSee(p, seeds, forced, facts, b, grown, x);
    }
  }

  lemma {:induction false} FlowBounded(p: Cfg, seeds: Seeds, facts: Facts, row: seq<EdgeId>, departing: bool)
    requires Bounded(p, seeds, facts)
    ensures FlowAlong(p, facts, row, departing) <= Universe(p, seeds)
  {
    if row != [] {
      FlowBounded(p, seeds, facts, row[..|row| - 1], departing);
    }
  }

  lemma ExitsBounded(p: Cfg, seeds: Seeds, forced: Forced, facts: Facts, b: BlockId)
    requires p.WellFormed() && b in p.blocks && Bounded(p, seeds, facts)
    ensures LiveBefore(p, seeds, forced, facts, Pos(b, 0)) <= Universe(p, seeds)
  {
    FlowBounded(p, seeds, facts, OutRow(p, b), false);
    FlowBounded(p, seeds, facts, OutRow(p, b), true);
    UniverseCovers(p, seeds, p.bound, b);
    BeforeBounded(p, seeds, forced, b, 0, OutOf(p, seeds, facts, b), FlowBack(p, facts, b, true));
  }

  lemma GrowthShrinks(p: Cfg, seeds: Seeds, facts: Facts, b: BlockId, grown: set<Var>)
    requires Bounded(p, seeds, facts) && b in facts && facts[b] < grown <= Universe(p, seeds)
    ensures Bounded(p, seeds, facts[b := grown])
    ensures AllPairs(p, seeds) - Pairs(facts[b := grown]) < AllPairs(p, seeds) - Pairs(facts)
  {
    var extra := grown - facts[b];
    assert facts[b] + extra == grown;
    HasMember(extra);
    var v :| v in extra;
    assert (b, v) in AllPairs(p, seeds) - Pairs(facts);
    assert (b, v) in Pairs(facts[b := grown]);
    assert Pairs(facts) <= Pairs(facts[b := grown]);
  }

  lemma GrowthJustified(p: Cfg, seeds: Seeds, forced: Forced, facts: Facts, b: BlockId)
    requires p.WellFormed() && b in p.blocks && b in facts && Justified(p, seeds, forced, facts)
    ensures Justified(p, seeds, forced, facts[b := facts[b] + LiveBefore(p, seeds, forced, facts, Pos(b, 0))])
  {
    forall v | v in LiveBefore(p, seeds, forced, facts, Pos(b, 0)) ensures Matters(p, seeds, forced, Pos(b, 0), v) {
      ReplayJustified(p, seeds, forced, facts, Pos(b, 0), v);
    }
  }

  /** One visit keeps everything the solve relies on, and grows the facts whenever it changes them. */
  lemma VisitProgress(p: Cfg, seeds: Seeds, forced: Forced, facts: Facts, b: BlockId, queued: set<BlockId>)
    requires p.WellFormed() && b in p.blocks && Bounded(p, seeds, facts) && Justified(p, seeds, forced, facts)
    requires ClosedUnless(p, seeds, forced, facts, queued)
    ensures var grown := facts[b] + LiveBefore(p, seeds, forced, facts, Pos(b, 0));
            var next := facts[b := grown];
            if grown == facts[b] then ClosedUnless(p, seeds, forced, facts, queued - {b})
            else
              && Bounded(p, seeds, next) && Justified(p, seeds, forced, next)
              && ClosedUnless(p, seeds, forced, next, queued - {b} + Predecessors(p, b))
              && AllPairs(p, seeds) - Pairs(next) < AllPairs(p, seeds) - Pairs(facts)
  {
    VisitCloses(p, seeds, forced, facts, b, queued);
    ExitsBounded(p, seeds, forced, facts, b);
    GrowthJustified(p, seeds, forced, facts, b);
    var grown := facts[b] + LiveBefore(p, seeds, forced, facts, Pos(b, 0));
    if grown != facts[b] {
      GrowthShrinks(p, seeds, facts, b, grown);
    }
  }

  /** Every queued block is on the worklist, which holds only blocks of the program. */
  ghost predicate Listed(p: Cfg, queued: set<BlockId>, worklist: seq<BlockId>) {
    (forall b :: b in queued ==> b in worklist) && (forall b :: b in worklist ==> b in p.blocks)
  }

  lemma PopListed(p: Cfg, queued: set<BlockId>, worklist: seq<BlockId>)
    requires Listed(p, queued, worklist) && worklist != []
    ensures var b := worklist[|worklist| - 1];
            b in p.blocks && Listed(p, queued - {b}, worklist[..|worklist| - 1])
  {
    assert worklist == worklist[..|worklist| - 1] + [worklist[|worklist| - 1]];
  }

  lemma SourcesStep(p: Cfg, row: seq<EdgeId>, i: nat)
    requires i < |row| && row[i] in p.edges
    ensures SourcesOf(p, row[..i + 1]) == SourcesOf(p, row[..i]) + {p.edges[row[i]].source}
  {
    assert row[..i + 1] == row[..i] + [row[i]];
  }

  /** Queues the source of every edge into `b` that is not queued already. */
  method EnqueueSources(p: Cfg, b: BlockId, queued: set<BlockId>, worklist: seq<BlockId>)
    returns (flags: set<BlockId>, longer: seq<BlockId>)
    requires p.WellFormed() && b in p.blocks
    requires Listed(p, queued, worklist)
    ensures flags == queued + Predecessors(p, b) && Listed(p, flags, longer)
  {
    flags, longer := queued, worklist;
    var row := p.inc[b];
    for i := 0 to |row|
      invariant flags == queued + SourcesOf(p, row[..i]) && Listed(p, flags, longer)
    {
      var source := p.edges[row[i]].source;
      SourcesStep(p, row, i);
      if source !in flags {
        flags := flags + {source};
        longer := longer + [source];
      }
    }
    assert row[..|row|] == row;
  }
}
