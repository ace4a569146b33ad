/** Block paths, block dominance by paths, and what an unwind out of a block reaches. */
module Trails {
  import opened Wrappers
  import opened Program

  /** A path of blocks, newest last. */
  datatype Trail = From(at: BlockId) | To(prev: Trail, at: BlockId)
  {
    function First(): BlockId { if From? then at else prev.First() }
    predicate Avoids(b: BlockId) { at != b && (To? ==> prev.Avoids(b)) }
  }

  ghost predicate Succ(p: Cfg, a: BlockId, b: BlockId) {
    exists e :: e in p.edges && p.edges[e].source == a && p.edges[e].target == b
  }

  ghost predicate IsTrail(p: Cfg, t: Trail) {
    t.To? ==> IsTrail(p, t.prev) && Succ(p, t.prev.at, t.at)
  }

  ghost predicate IsTrailTo(p: Cfg, t: Trail, from: BlockId, to: BlockId) {
    IsTrail(p, t) && t.First() == from && t.at == to
  }

  ghost predicate ReachableBlock(p: Cfg, b: BlockId) {
    exists t :: IsTrailTo(p, t, p.entry, b)
  }

  ghost function ReachableBlocks(p: Cfg): set<BlockId> {
    set b | b in p.blocks && ReachableBlock(p, b)
  }

  /** Every path from the entry to `b` passes through `d`; the answer the dominator tree gives, by paths.
      A block dominates itself, and no other pair with an unreachable member is in the relation. */
  ghost predicate BlockDominates(p: Cfg, d: BlockId, b: BlockId) {
    d == b || (ReachableBlock(p, b) && forall t :: IsTrailTo(p, t, p.entry, b) ==> !t.Avoids(d))
  }

  /** The first instruction of `b`, from `i` on, that may throw. */
  function FirstThrow(p: Cfg, b: BlockId, i: nat): (r: Option<nat>)
    requires i <= |Insts(p, b)|
    ensures r.Some? ==> i <= r.value < |Insts(p, b)| && Insts(p, b)[r.value].mayUnwind
    ensures forall j :: i <= j < (if r.Some? then r.value else |Insts(p, b)|) ==> !Insts(p, b)[j].mayUnwind
    decreases |Insts(p, b)| - i
  {
    if i == |Insts(p, b)| then None
    else if Insts(p, b)[i].mayUnwind then Some(i)
    else FirstThrow(p, b, i + 1)
  }

  ghost predicate HasUnwindEdge(p: Cfg, b: BlockId) {
    exists e :: e in p.edges && p.edges[e].source == b && IsUnwind(p.edges[e])
  }

  /** The first instruction of `b` before which an unwind can leave it. */
  ghost function FirstUnwind(p: Cfg, b: BlockId): Option<nat> {
    if HasUnwindEdge(p, b) then FirstThrow(p, b, 0) else None
  }

  ghost predicate UnwindSuccessor(p: Cfg, b: BlockId, u: BlockId) {
    u != b && exists e :: e in p.edges && p.edges[e].source == b && IsUnwind(p.edges[e]) && p.edges[e].target == u
  }

  /** An unwind out of `b` reaches `to` without entering `b` again. */
  ghost predicate UnwindReaches(p: Cfg, b: BlockId, to: BlockId) {
    exists t: Trail :: IsTrail(p, t) && t.at == to && t.Avoids(b) && UnwindSuccessor(p, b, t.First())
  }

  /** From its current position `r` executes on to index `i` of its block. */
  lemma {:induction false} Straight(p: Cfg, r: Run, i: nat) returns (q: Run)
    requires IsRun(p, r) && r.at.idx <= i <= |Insts(p, r.at.block)|
    ensures IsRun(p, q) && q.at == Pos(r.at.block, i)
    ensures forall d :: Executed(q, d) <==> Executed(r, d) || (d.block == r.at.block && r.at.idx <= d.idx < i)
    decreases i - r.at.idx
  {
    if r.at.idx == i {
      q := r;
    } else {
      q := Straight(p, Step(r, After(r.at), 0), i);
    }
  }

  /** Every edge can be taken by a run that stands at the start of its source block. */
  lemma CrossEdge(p: Cfg, r: Run, e: EdgeId) returns (q: Run)
    requires IsRun(p, r) && e in p.edges && r.at == Pos(p.edges[e].source, 0)
    ensures IsRun(p, q) && q.at == Pos(p.edges[e].target, 0)
    ensures forall d :: Executed(q, d) ==> Executed(r, d) || d.block == r.at.block
  {
    var n := |Insts(p, r.at.block)|;
    if Departs(p, p.edges[e]) {
      var i :| 0 <= i < n && Insts(p, r.at.block)[i].mayUnwind;
      q := Straight(p, r, i);
    } else {
      q := Straight(p, r, n);
    }
    assert LeavesVia(p, q.at, p.edges[e]);
    assert Crosses(p, q.at, Pos(p.edges[e].target, 0));
    q := Step(q, Pos(p.edges[e].target, 0), 0);
  }

  /** A run at the start of a trail can follow it, executing only in the blocks the trail passes. */
  lemma {:induction false} Follow(p: Cfg, r: Run, t: Trail, avoid: BlockId) returns (q: Run)
    requires IsRun(p, r) && IsTrail(p, t) && r.at == Pos(t.First(), 0) && t.Avoids(avoid)
    ensures IsRun(p, q) && q.at == Pos(t.at, 0)
    ensures forall d: Pos :: d.block == avoid && Executed(q, d) ==> Executed(r, d)
  {
    match t
    case From(_) => q := r;
    case To(prev, at) =>
      q := Follow(p, r, prev, avoid);
      var e :| e in p.edges && p.edges[e].source == prev.at && p.edges[e].target == at;
      q := CrossEdge(p, q, e);
  }

  /** The blocks a run has visited form a trail. */
  lemma {:induction false} RunTrail(p: Cfg, r: Run) returns (t: Trail)
    requires IsRun(p, r)
    ensures IsTrailTo(p, t, p.entry, r.at.block)
  {
    match r
    case Enter(_, _) => t := From(p.entry);
    case Step(prev, at, _) =>
      t := RunTrail(p, prev);
      if !Execs(p, prev.at, at) {
        t := To(t, at.block);
      }
  }

  /** A reachable block is entered by a run that has executed nothing in it before. */
  lemma {:induction false} FirstEntry(p: Cfg, t: Trail) returns (q: Run)
    requires IsTrailTo(p, t, p.entry, t.at)
    ensures IsRun(p, q) && q.at == Pos(t.at, 0)
    ensures forall d: Pos :: d.block == t.at ==> !Executed(q, d)
  {
    if !t.Avoids(t.at) && t.To? && !t.prev.Avoids(t.at) {
      var shorter := CutAt(p, t.prev, t.at);
      q := FirstEntry(p, shorter);
    } else if t.To? {
      q := Follow(p, Enter(Pos(p.entry, 0), map[]), t.prev, t.at);
      var e :| e in p.edges && p.edges[e].source == t.prev.at && p.edges[e].target == t.at;
      q := CrossEdge(p, q, e);
    } else {
      q := Enter(Pos(p.entry, 0), map[]);
    }
  }

  lemma {:induction false} CutAt(p: Cfg, t: Trail, b: BlockId) returns (s: Trail)
    requires IsTrail(p, t) && !t.Avoids(b)
    ensures IsTrail(p, s) && s.at == b && s.First() == t.First() && (s == t || s < t)
    ensures forall x :: t.Avoids(x) ==> s.Avoids(x)
  {
    if t.at == b { s := t; } else { s := CutAt(p, t.prev, b); }
  }
}

/** Reachability over blocks, computed by a worklist. */
module Reachability {
  import opened Wrappers
  import opened Program
  import opened Trails

  /** Some path from a block of `starts` ends in `b` without entering `avoid`. */
  ghost predicate Reaches(p: Cfg, starts: set<BlockId>, avoid: Option<BlockId>, b: BlockId) {
    exists t: Trail :: IsTrail(p, t) && t.at == b && t.First() in starts && (avoid.Some? ==> t.Avoids(avoid.value))
  }

  ghost predicate Sound(p: Cfg, starts: set<BlockId>, avoid: Option<BlockId>, seen: set<BlockId>) {
    forall b {:trigger Reaches(p, starts, avoid, b)} :: b in seen ==> Reaches(p, starts, avoid, b)
  }

  ghost predicate Stepped(p: Cfg, avoid: Option<BlockId>, seen: set<BlockId>, b: BlockId) {
    forall e :: e in p.edges && p.edges[e].source == b && avoid != Some(p.edges[e].target) ==> p.edges[e].target in seen
  }

  lemma ExtendReach(p: Cfg, starts: set<BlockId>, avoid: Option<BlockId>, e: EdgeId)
    requires e in p.edges && Reaches(p, starts, avoid, p.edges[e].source) && avoid != Some(p.edges[e].target)
    ensures Reaches(p, starts, avoid, p.edges[e].target)
  {
    var t: Trail :| IsTrail(p, t) && t.at == p.edges[e].source && t.First() in starts
                    && (avoid.Some? ==> t.Avoids(avoid.value));
    assert IsTrail(p, To(t, p.edges[e].target)) && To(t, p.edges[e].target).First() in starts;
  }

  lemma {:induction false} SteppedComplete(p: Cfg, starts: set<BlockId>, avoid: Option<BlockId>, seen: set<BlockId>, t: Trail)
    requires forall b :: b in seen ==> Stepped(p, avoid, seen, b)
    requires forall b :: b in starts && avoid != Some(b) ==> b in seen
    requires IsTrail(p, t) && t.First() in starts && (avoid.Some? ==> t.Avoids(avoid.value))
    ensures t.at in seen
  {
    if t.To? {
      SteppedComplete(p, starts, avoid, seen, t.prev);
      assert Stepped(p, avoid, seen, t.prev.at);
    }
  }

  method Reach(p: Cfg, starts: set<BlockId>, avoid: Option<BlockId>) returns (seen: set<BlockId>)
    requires p.WellFormed() && starts <= p.blocks.Keys
    ensures forall b :: b in seen <==> Reaches(p, starts, avoid, b)
  {
    seen := set b | b in starts && avoid != Some(b);
    var pending := seen;
    forall b | b in seen ensures Reaches(p, starts, avoid, b) {
      assert IsTrail(p, From(b)) && From(b).First() in starts;
    }
    while pending != {}
      invariant pending <= seen <= p.blocks.Keys
      invariant Sound(p, starts, avoid, seen)
      invariant forall b :: b in starts && avoid != Some(b) ==> b in seen
      invariant forall b {:trigger Stepped(p, avoid, seen, b)} :: b in seen && b !in pending ==> Stepped(p, avoid, seen, b)
      decreases p.blocks.Keys - seen, |pending|
    {
      var b :| b in pending;
      var found := set e | e in p.edges && p.edges[e].source == b && avoid != Some(p.edges[e].target)
                           && p.edges[e].target !in seen :: p.edges[e].target;
      VisitReaches(p, starts, avoid, seen, pending, b, found);
      seen, pending := seen + found, pending - {b} + found;
    }
    forall b | Reaches(p, starts, avoid, b) ensures b in seen {
      var t: Trail :| IsTrail(p, t) && t.at == b && t.First() in starts && (avoid.Some? ==> t.Avoids(avoid.value));
      SteppedComplete(p, starts, avoid, seen, t);
    }
    assert Sound(p, starts, avoid, seen);
  }

  lemma VisitReaches(p: Cfg, starts: set<BlockId>, avoid: Option<BlockId>, seen: set<BlockId>, pending: set<BlockId>,
              b: BlockId, found: set<BlockId>)
    requires p.WellFormed() && b in pending && pending <= seen <= p.blocks.Keys && Sound(p, starts, avoid, seen)
    requires forall b {:trigger Stepped(p, avoid, seen, b)} :: b in seen && b !in pending ==> Stepped(p, avoid, seen, b)
    requires found == set e | e in p.edges && p.edges[e].source == b && avoid != Some(p.edges[e].target)
                              && p.edges[e].target !in seen :: p.edges[e].target
    ensures Sound(p, starts, avoid, seen + found) && found <= p.blocks.Keys && found !! seen
    ensures forall x :: x in seen + found && x !in pending - {b} + found ==> Stepped(p, avoid, seen + found, x)
  {
    forall x | x in seen + found ensures Reaches(p, starts, avoid, x) {
      if x in found {
        var e :| e in p.edges && p.edges[e].source == b && avoid != Some(p.edges[e].target) && p.edges[e].target == x;
        assert Reaches(p, starts, avoid, b);
        ExtendReach(p, starts, avoid, e);
      }
    }
    forall x | x in seen + found && x !in pending - {b} + found ensures Stepped(p, avoid, seen + found, x) {
      assert x != b ==> Stepped(p, avoid, seen, x);
    }
  }
}
