/** Splitting a block: what it does to the graph, and to its runs. */
module Splits {
  import opened Wrappers
  import opened EdgeKinds
  import opened Program

  /** The first `at` instructions stay, the others go to a new block with every outgoing edge, and a fallthrough edge `f`
      joins the two. */
  function SplitOf(p: Cfg, id: BlockId, at: nat, f: EdgeId): Cfg
    requires id in p.blocks && id in p.out && at <= |p.blocks[id]|
  {
    var n := p.bound;
    p.(bound := n + 1,
       blocks := p.blocks[id := p.blocks[id][..at]][n := p.blocks[id][at..]],
       edges := (map e | e in p.edges :: if p.edges[e].source == id then p.edges[e].(source := n) else p.edges[e])
                [f := Edge(id, n, Fallthrough)],
       out := p.out[n := p.out[id]][id := [f]],
       inc := p.inc[n := [f]])
  }

  ghost predicate CanSplit(p: Cfg, id: BlockId, at: nat, f: EdgeId) {
    p.WellFormed() && id in p.blocks && at <= |p.blocks[id]| && f !in p.edges
  }

  lemma SplitWellFormed(p: Cfg, id: BlockId, at: nat, f: EdgeId)
    requires CanSplit(p, id, at, f)
    ensures SplitOf(p, id, at, f).WellFormed()
  {
    var q := SplitOf(p, id, at, f);
    forall e | e in q.edges
      ensures q.edges[e].source in q.blocks && q.edges[e].target in q.blocks
      ensures e in q.out[q.edges[e].source] && e in q.inc[q.edges[e].target]
    {
    }
    forall b, i | b in q.out && 0 <= i < |q.out[b]| ensures q.out[b][i] in q.edges && q.edges[q.out[b][i]].source == b {
      assert b != id && b != p.bound ==> p.out[b][i] in p.edges;
      assert b == p.bound ==> p.out[id][i] in p.edges;
    }
    forall b, i | b in q.inc && 0 <= i < |q.inc[b]| ensures q.inc[b][i] in q.edges && q.edges[q.inc[b][i]].target == b {
      assert b != p.bound ==> p.inc[b][i] in p.edges;
    }
  }

  /** Where a position of the split program was before. */
  function Origin(id: BlockId, at: nat, n: BlockId, a: Pos): Pos {
    if a.block == n then Pos(id, at + a.idx) else a
  }

  /** Where a position is after the split, past the fallthrough when it stood at the point. */
  function Canon(id: BlockId, at: nat, n: BlockId, a: Pos): Pos {
    if a.block == id && a.idx >= at then Pos(n, a.idx - at) else a
  }

  /** No unwind edge leaves the block, or nothing before the point throws. */
  ghost predicate HeadQuiet(p: Cfg, id: BlockId, at: nat) {
    (exists e :: e in p.edges && p.edges[e].source == id && IsUnwind(p.edges[e])) ==>
      forall i :: 0 <= i < at && i < |Insts(p, id)| ==> !Insts(p, id)[i].mayUnwind
  }

  lemma TailThrows(p: Cfg, id: BlockId, at: nat, f: EdgeId, e: EdgeId)
    requires CanSplit(p, id, at, f) && HeadQuiet(p, id, at) && e in p.edges && p.edges[e].source == id && IsUnwind(p.edges[e])
    ensures Throws(SplitOf(p, id, at, f), p.bound) == Throws(p, id)
  {
    var q := SplitOf(p, id, at, f);
    if Throws(p, id) {
      var i :| 0 <= i < |Insts(p, id)| && Insts(p, id)[i].mayUnwind;
      assert i >= at && Insts(q, p.bound)[i - at] == Insts(p, id)[i];
    }
    if Throws(q, p.bound) {
      var j :| 0 <= j < |Insts(q, p.bound)| && Insts(q, p.bound)[j].mayUnwind;
      assert Insts(p, id)[at + j] == Insts(q, p.bound)[j];
    }
  }

  /** Each old edge leaves the split program where it left before. */
  lemma EdgeLeaves(p: Cfg, id: BlockId, at: nat, f: EdgeId, e: EdgeId, a: Pos)
    requires CanSplit(p, id, at, f) && HeadQuiet(p, id, at) && e in p.edges && InRange(SplitOf(p, id, at, f), a)
    ensures LeavesVia(SplitOf(p, id, at, f), a, SplitOf(p, id, at, f).edges[e]) ==>
              LeavesVia(p, Origin(id, at, p.bound, a), p.edges[e])
    ensures LeavesVia(p, Origin(id, at, p.bound, a), p.edges[e]) && a == Canon(id, at, p.bound, Origin(id, at, p.bound, a)) ==>
              LeavesVia(SplitOf(p, id, at, f), a, SplitOf(p, id, at, f).edges[e])
  {
    var q := SplitOf(p, id, at, f);
    if p.edges[e].source == id {
      if IsUnwind(p.edges[e]) {
        TailThrows(p, id, at, f, e);
      }
      assert a.block == p.bound && a.idx < |Insts(q, a.block)| ==> Insts(q, a.block)[a.idx] == Insts(p, id)[at + a.idx];
    } else {
      assert p.edges[e].source in p.blocks;
      assert Insts(q, p.edges[e].source) == Insts(p, p.edges[e].source);
    }
  }

  lemma SilentStep(p: Cfg, id: BlockId, at: nat, f: EdgeId)
    requires CanSplit(p, id, at, f)
    ensures Next(SplitOf(p, id, at, f), Pos(id, at), Pos(p.bound, 0))
  {
    var q := SplitOf(p, id, at, f);
    assert f in q.edges && LeavesVia(q, Pos(id, at), q.edges[f]);
  }

  /** The fallthrough is the only way into the new block. */
  lemma OnlyFallthrough(p: Cfg, id: BlockId, at: nat, f: EdgeId, a: Pos)
    requires CanSplit(p, id, at, f) && Next(SplitOf(p, id, at, f), a, Pos(p.bound, 0))
    ensures a == Pos(id, at)
  {
    var q := SplitOf(p, id, at, f);
    OnlyNewEdge(p, id, at, f);
    var e :| e in q.edges && LeavesVia(q, a, q.edges[e]) && q.edges[e].target == p.bound;
  }

  lemma OnlyNewEdge(p: Cfg, id: BlockId, at: nat, f: EdgeId)
    requires CanSplit(p, id, at, f)
    ensures var q := SplitOf(p, id, at, f);
            forall e {:trigger q.edges[e]} :: e in q.edges && e != f ==> e in p.edges && q.edges[e].target != p.bound
  {
    var q := SplitOf(p, id, at, f);
    forall e | e in q.edges && e != f ensures e in p.edges && q.edges[e].target != p.bound {
      assert p.edges[e].target in p.blocks;
    }
  }

  /** A step of the split program other than the fallthrough is a step of the original. */
  lemma StepBack(p: Cfg, id: BlockId, at: nat, f: EdgeId, a: Pos, b: Pos)
    requires CanSplit(p, id, at, f) && HeadQuiet(p, id, at) && InRange(SplitOf(p, id, at, f), a)
    requires Next(SplitOf(p, id, at, f), a, b) && b != Pos(p.bound, 0)
    ensures var (a', b') := (Origin(id, at, p.bound, a), Origin(id, at, p.bound, b));
            && Next(p, a', b') && (b.idx == 0 <==> b'.idx == 0) && (b.idx > 0 ==> AtInst(p, a') && AtInst(SplitOf(p, id, at, f), a))
            && (b.idx > 0 ==> InstAt(p, a') == InstAt(SplitOf(p, id, at, f), a))
  {
    var q := SplitOf(p, id, at, f);
    if Execs(q, a, b) {
      assert Insts(q, a.block)[a.idx] == Insts(p, Origin(id, at, p.bound, a).block)[Origin(id, at, p.bound, a).idx];
    } else {
      var e :| e in q.edges && LeavesVia(q, a, q.edges[e]) && q.edges[e].target == b.block;
      assert e != f;
      EdgeLeaves(p, id, at, f, e, a);
      assert p.edges[e].target in p.blocks && p.edges[e].target == b.block;
    }
  }

  /** Every run of the split program is one of the original that stands where it stands and holds what it holds. */
  lemma {:induction false} RunsBack(p: Cfg, sem: Semantics, id: BlockId, at: nat, f: EdgeId, r: Run) returns (s: Run)
    requires CanSplit(p, id, at, f) && HeadQuiet(p, id, at) && IsRun(SplitOf(p, id, at, f), r)
    ensures IsRun(p, s) && s.at == Origin(id, at, p.bound, r.at)
    ensures StoreOf(p, sem, s) == StoreOf(SplitOf(p, id, at, f), sem, r)
    decreases r
  {
    var q := SplitOf(p, id, at, f);
    hide HeadQuiet, Cfg.WellFormed;
    match r
    case Enter(a, initial) => s := Enter(a, initial);
    case Step(prev, b, env) =>
      s := RunsBack(p, sem, id, at, f, prev);
      if b == Pos(p.bound, 0) {
        OnlyFallthrough(p, id, at, f, prev.at);
      } else {
        SplitWellFormed(p, id, at, f);
        RunInRange(q, prev);
        StepBack(p, id, at, f, prev.at, b);
        s := Step(s, Origin(id, at, p.bound, b), env);
      }
  }

  /** A step of the original, from where the split program stands. */
  lemma StepForward(p: Cfg, id: BlockId, at: nat, f: EdgeId, a: Pos, b: Pos) returns (c: Pos)
    requires CanSplit(p, id, at, f) && HeadQuiet(p, id, at) && InRange(p, a) && Next(p, a, b)
    ensures var (q, a') := (SplitOf(p, id, at, f), Canon(id, at, p.bound, a));
            && Next(q, a', c) && (c.idx == 0 <==> b.idx == 0) && (b.idx > 0 ==> AtInst(p, a) && AtInst(q, a') && InstAt(p, a) == InstAt(q, a'))
    ensures c == Canon(id, at, p.bound, b) || (c == b == Pos(id, at))
  {
    var q, a' := SplitOf(p, id, at, f), Canon(id, at, p.bound, a);
    if Execs(p, a, b) {
      c := After(a');
      assert Insts(q, a'.block)[a'.idx] == Insts(p, a.block)[a.idx];
    } else {
      var e :| e in p.edges && LeavesVia(p, a, p.edges[e]) && p.edges[e].target == b.block;
      assert p.edges[e].target in p.blocks && p.edges[e].source in p.blocks;
      c := b;
      EdgeLeaves(p, id, at, f, e, a');
      assert Origin(id, at, p.bound, a') == a;
      assert q.edges[e].target == c.block;
    }
  }

  /** Every run of the original is one of the split program, past the fallthrough when it stands at the point. */
  lemma {:induction false} RunsForward(p: Cfg, sem: Semantics, id: BlockId, at: nat, f: EdgeId, r: Run) returns (s: Run)
    requires CanSplit(p, id, at, f) && HeadQuiet(p, id, at) && IsRun(p, r)
    ensures IsRun(SplitOf(p, id, at, f), s) && s.at == Canon(id, at, p.bound, r.at)
    ensures StoreOf(SplitOf(p, id, at, f), sem, s) == StoreOf(p, sem, r)
    decreases r
  {
    SilentStep(p, id, at, f);
    match r
    case Enter(a, initial) =>
      s := Enter(a, initial);
      if a == Pos(id, at) {
        s := Step(s, Pos(p.bound, 0), 0);
      }
    case Step(prev, b, env) =>
      s := RunsForward(p, sem, id, at, f, prev);
      RunInRange(p, prev);
      var c := StepForward(p, id, at, f, prev.at, b);
      s := Step(s, c, env);
      if c != Canon(id, at, p.bound, b) {
        s := Step(s, Pos(p.bound, 0), 0);
      }
  }

  lemma CrossingSurvives(p: Cfg, id: BlockId, at: nat, f: EdgeId, a: Pos, b: Pos)
    requires CanSplit(p, id, at, f) && HeadQuiet(p, id, at) && InRange(p, a) && Crosses(p, a, b)
    ensures Crosses(SplitOf(p, id, at, f), Canon(id, at, p.bound, a), b)
  {
    var e :| e in p.edges && LeavesVia(p, a, p.edges[e]) && p.edges[e].target == b.block;
    assert p.edges[e].source in p.blocks;
    EdgeLeaves(p, id, at, f, e, Canon(id, at, p.bound, a));
    assert SplitOf(p, id, at, f).edges[e].target == b.block;
  }

  /** Every crossing of the original is still there exactly when no throwing instruction is cut off from an unwind edge. */
  lemma SplitExact(p: Cfg, id: BlockId, at: nat, f: EdgeId)
    requires CanSplit(p, id, at, f)
    ensures HeadQuiet(p, id, at) <==>
            forall a, b :: InRange(p, a) && Crosses(p, a, b) ==> Crosses(SplitOf(p, id, at, f), Canon(id, at, p.bound, a), b)
  {
    var q := SplitOf(p, id, at, f);
    if HeadQuiet(p, id, at) {
      forall a, b | InRange(p, a) && Crosses(p, a, b) ensures Crosses(q, Canon(id, at, p.bound, a), b) {
        CrossingSurvives(p, id, at, f, a, b);
      }
    } else {
      var e :| e in p.edges && p.edges[e].source == id && IsUnwind(p.edges[e]);
      var i :| 0 <= i < at && i < |Insts(p, id)| && Insts(p, id)[i].mayUnwind;
      var a, b := Pos(id, i), Pos(p.edges[e].target, 0);
      assert LeavesVia(p, a, p.edges[e]);
      HeadHolds(p, id, at, f, i, b);
      assert InRange(p, a) && Crosses(p, a, b) && !Crosses(q, Canon(id, at, p.bound, a), b);
    }
  }

  /** Nothing leaves the head before its end. */
  lemma HeadHolds(p: Cfg, id: BlockId, at: nat, f: EdgeId, i: nat, b: Pos)
    requires CanSplit(p, id, at, f) && i < at
    ensures !Crosses(SplitOf(p, id, at, f), Pos(id, i), b)
  {
    var q := SplitOf(p, id, at, f);
    forall e | e in q.edges && q.edges[e].source == id ensures !LeavesVia(q, Pos(id, i), q.edges[e]) {
      assert e == f;
    }
  }

  /** A block that throws at its first instruction, with a handler. */
  function Guarded(): Cfg {
    Cfg(0, 2, map[0 := [Inst(0, [], [], true, false, false, NoTransfer), Inst(0, [], [], false, false, false, NoTransfer)], 1 := []],
        map[0 := Edge(0, 1, ExceptionUnwind)], map[0 := [0], 1 := []], map[0 := [], 1 := [0]])
  }

  /** Split behind the throw, it no longer reaches its handler. */
  lemma SplitLosesUnwind()
    ensures CanSplit(Guarded(), 0, 1, 1) && Crosses(Guarded(), Pos(0, 0), Pos(1, 0))
    ensures !Crosses(SplitOf(Guarded(), 0, 1, 1), Pos(0, 0), Pos(1, 0))
  {
    var p := Guarded();
    assert p.out[0] == [0] && p.out[1] == [] && p.inc[0] == [] && p.inc[1] == [0];
    assert p.inc[1][0] == 0;
    assert Insts(p, 0)[0].mayUnwind;
    assert LeavesVia(p, Pos(0, 0), p.edges[0]);
    HeadHolds(p, 0, 1, 1, 0, Pos(1, 0));
  }
}
