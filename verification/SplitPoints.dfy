/** Splitting one block at several points: the blocks that result, the runs they keep, and the record that says so. */
module SplitPoints {
  import opened Wrappers
  import opened Sequences
  import opened EdgeKinds
  import opened Program
  import opened Rewrites
  import opened Splits

  predicate PointsOk(p: Cfg, id: BlockId, points: seq<nat>) {
    && id in p.blocks && id in p.out && id < p.bound
    && Increasing(points) && forall i :: 0 <= i < |points| ==> points[i] <= |p.blocks[id]|
  }

  /** A well-formed graph whose edges are all numbered below `f`. */
  ghost predicate EdgesBelow(p: Cfg, f: EdgeId) { p.WellFormed() && forall e :: e in p.edges ==> e < f }

  /** The `i`-th piece of block `id` in execution order, when new blocks are numbered from `n` on. */
  function Piece(id: BlockId, n: BlockId, i: nat): BlockId { if i == 0 then id else n + i - 1 }

  /** One more split of the last piece. */
  ghost predicate SplitsNext(p: Cfg, id: BlockId, points: seq<nat>, f: EdgeId, q: Cfg, r: Cfg, k: nat)
    requires k < |points|
  {
    var last, base := Piece(id, p.bound, k), Start(points, k);
    && base <= points[k] && last in q.blocks && last in q.out && points[k] - base <= |q.blocks[last]|
    && r == SplitOf(q, last, points[k] - base, f + k)
  }

  /** The graphs that splitting at each point in turn goes through. */
  ghost predicate IsChain(p: Cfg, id: BlockId, points: seq<nat>, f: EdgeId, cs: seq<Cfg>) {
    && PointsOk(p, id, points) && EdgesBelow(p, f) && 0 < |cs| <= |points| + 1 && cs[0] == p
    && forall k :: 0 <= k < |cs| - 1 ==> SplitsNext(p, id, points, f, cs[k], cs[k + 1], k)
  }

  lemma ChainStep(p: Cfg, id: BlockId, points: seq<nat>, f: EdgeId, cs: seq<Cfg>, k: nat)
    requires IsChain(p, id, points, f, cs) && k + 1 < |cs|
    ensures SplitsNext(p, id, points, f, cs[k], cs[k + 1], k)
  {
  }

  lemma {:induction false} ChainBound(p: Cfg, id: BlockId, points: seq<nat>, f: EdgeId, cs: seq<Cfg>, n: nat)
    requires IsChain(p, id, points, f, cs) && n < |cs|
    ensures cs[n].bound == p.bound + n && cs[n].entry == p.entry && id < p.bound
  {
    if n > 0 {
      ChainBound(p, id, points, f, cs, n - 1);
      ChainStep(p, id, points, f, cs, n - 1);
    }
  }

  lemma EdgesBelowNext(q: Cfg, last: BlockId, at: nat, f: EdgeId, r: Cfg)
    requires EdgesBelow(q, f) && last in q.blocks && last in q.out && at <= |q.blocks[last]| && r == SplitOf(q, last, at, f)
    ensures EdgesBelow(r, f + 1)
  {
    SplitWellFormed(q, last, at, f);
  }

  lemma WellFormedStep(p: Cfg, id: BlockId, points: seq<nat>, f: EdgeId, cs: seq<Cfg>, n: nat)
    requires IsChain(p, id, points, f, cs) && n + 1 < |cs| && EdgesBelow(cs[n], f + n)
    ensures EdgesBelow(cs[n + 1], f + n + 1)
  {
    ChainStep(p, id, points, f, cs, n);
    EdgesBelowNext(cs[n], Piece(id, p.bound, n), points[n] - Start(points, n), f + n, cs[n + 1]);
  }

  /** Splitting keeps the graph well formed. */
  lemma {:induction false} ChainWellFormed(p: Cfg, id: BlockId, points: seq<nat>, f: EdgeId, cs: seq<Cfg>, n: nat)
    requires IsChain(p, id, points, f, cs) && n < |cs|
    ensures EdgesBelow(cs[n], f + n)
  {
    if n > 0 {
      ChainWellFormed(p, id, points, f, cs, n - 1);
      WellFormedStep(p, id, points, f, cs, n - 1);
    }
  }

  /** Where the `i`-th piece begins. */
  function Start(points: seq<nat>, i: nat): nat
    requires i <= |points|
  {
    if i == 0 then 0 else points[i - 1]
  }

  /** Where the `i`-th piece ends once `n` points have been split at. */
  function End(points: seq<nat>, count: nat, n: nat, i: nat): nat
    requires i <= n <= |points|
  {
    if i < n then points[i] else count
  }

  lemma StartBeforeEnd(points: seq<nat>, count: nat, n: nat, i: nat)
    requires Increasing(points) && i <= n <= |points| && forall j :: 0 <= j < |points| ==> points[j] <= count
    ensures Start(points, i) <= End(points, count, n, i) <= count
  {
  }

  lemma SliceTake<T>(s: seq<T>, a: nat, b: nat)
    requires a <= b <= |s|
    ensures s[a..][..b - a] == s[a..b] && s[a..][b - a..] == s[b..]
  {
  }

  /** Each piece holds its part of the instructions. */
  lemma {:induction false} PieceHolds(p: Cfg, id: BlockId, points: seq<nat>, f: EdgeId, cs: seq<Cfg>, n: nat, i: nat)
    requires IsChain(p, id, points, f, cs) && i <= n < |cs|
    ensures var count := |p.blocks[id]|;
            && Piece(id, p.bound, i) in cs[n].blocks && Start(points, i) <= End(points, count, n, i) <= count
            && cs[n].blocks[Piece(id, p.bound, i)] == p.blocks[id][Start(points, i)..End(points, count, n, i)]
    decreases n
  {
    var insts := p.blocks[id];
    StartBeforeEnd(points, |insts|, n, i);
    if n == 0 {
      assert insts[0..|insts|] == insts;
    } else {
      ChainBound(p, id, points, f, cs, n - 1);
      PieceHolds(p, id, points, f, cs, n - 1, if i < n then i else n - 1);
      PieceStep(p, id, points, f, cs, n - 1, i);
    }
  }

  /** Splitting the last piece splits what it holds, and leaves the others alone. */
  lemma PieceStep(p: Cfg, id: BlockId, points: seq<nat>, f: EdgeId, cs: seq<Cfg>, n: nat, i: nat)
    requires IsChain(p, id, points, f, cs) && n + 1 < |cs| && i <= n + 1
    requires cs[n].bound == p.bound + n && id < p.bound && SplitsNext(p, id, points, f, cs[n], cs[n + 1], n)
    requires var (count, j) := (|p.blocks[id]|, if i < n then i else n);
             && Piece(id, p.bound, j) in cs[n].blocks && Start(points, j) <= End(points, count, n, j) <= count
             && cs[n].blocks[Piece(id, p.bound, j)] == p.blocks[id][Start(points, j)..End(points, count, n, j)]
    ensures Piece(id, p.bound, i) in cs[n + 1].blocks
    ensures var (lo, hi) := (Start(points, i), End(points, |p.blocks[id]|, n + 1, i));
            lo <= hi <= |p.blocks[id]| ==> cs[n + 1].blocks[Piece(id, p.bound, i)] == p.blocks[id][lo..hi]
  {
    if i >= n {
      var insts := p.blocks[id];
      assert cs[n].blocks[Piece(id, p.bound, n)] == insts[Start(points, n)..];
      SliceTake(insts, Start(points, n), points[n]);
    }
  }

  /** Every other block is as it was. */
  lemma {:induction false} OthersKept(p: Cfg, id: BlockId, points: seq<nat>, f: EdgeId, cs: seq<Cfg>, n: nat, b: BlockId)
    requires IsChain(p, id, points, f, cs) && n < |cs| && b in p.blocks && b != id
    ensures b in cs[n].blocks && b in cs[n].out && b in p.out && cs[n].blocks[b] == p.blocks[b] && cs[n].out[b] == p.out[b]
  {
    if n > 0 {
      OthersKept(p, id, points, f, cs, n - 1, b);
      ChainStep(p, id, points, f, cs, n - 1);
      ChainBound(p, id, points, f, cs, n - 1);
    }
  }

  lemma AllOthersKept(p: Cfg, id: BlockId, points: seq<nat>, f: EdgeId, cs: seq<Cfg>, q: Cfg)
    requires IsChain(p, id, points, f, cs) && |cs| == |points| + 1 && q == cs[|points|]
    ensures forall b :: b in p.blocks && b != id ==>
              b in q.blocks && b in q.out && b in p.out && q.blocks[b] == p.blocks[b] && q.out[b] == p.out[b]
  {
    forall b | b in p.blocks && b != id
      ensures b in q.blocks && b in q.out && b in p.out && q.blocks[b] == p.blocks[b] && q.out[b] == p.out[b]
    {
      OthersKept(p, id, points, f, cs, |points|, b);
    }
  }

  /** Each piece but the last falls through to the next, and does nothing else. */
  lemma {:induction false} FallsThrough(p: Cfg, id: BlockId, points: seq<nat>, f: EdgeId, cs: seq<Cfg>, n: nat, i: nat)
    requires IsChain(p, id, points, f, cs) && i < n < |cs|
    ensures f + i in cs[n].edges && cs[n].edges[f + i] == Edge(Piece(id, p.bound, i), Piece(id, p.bound, i + 1), Fallthrough)
    ensures Piece(id, p.bound, i) in cs[n].out && cs[n].out[Piece(id, p.bound, i)] == [f + i]
    decreases n
  {
    ChainStep(p, id, points, f, cs, n - 1);
    ChainBound(p, id, points, f, cs, n - 1);
    if i < n - 1 {
      FallsThrough(p, id, points, f, cs, n - 1, i);
    }
  }

  /** The old edges leave the last piece, in their order; nothing else about any old edge changes. */
  lemma {:induction false} OldEdges(p: Cfg, id: BlockId, points: seq<nat>, f: EdgeId, cs: seq<Cfg>, n: nat)
    requires IsChain(p, id, points, f, cs) && n < |cs|
    ensures var last := Piece(id, p.bound, n);
            && last in cs[n].out && id in p.out && cs[n].out[last] == p.out[id]
            && forall e :: e in p.edges ==>
                 e in cs[n].edges && cs[n].edges[e] == if p.edges[e].source == id then p.edges[e].(source := last) else p.edges[e]
  {
    if n > 0 {
      OldEdges(p, id, points, f, cs, n - 1);
      ChainStep(p, id, points, f, cs, n - 1);
      ChainBound(p, id, points, f, cs, n - 1);
      assert forall e :: e in p.edges ==> p.edges[e].source in p.blocks && e < f;
    }
  }

  /** There are no further blocks and no further edges. */
  lemma {:induction false} NothingElse(p: Cfg, id: BlockId, points: seq<nat>, f: EdgeId, cs: seq<Cfg>, n: nat)
    requires IsChain(p, id, points, f, cs) && n < |cs|
    ensures forall b :: b in cs[n].blocks <==> b in p.blocks || p.bound <= b < p.bound + n
    ensures forall e :: e in cs[n].edges <==> e in p.edges || f <= e < f + n
  {
    if n > 0 {
      NothingElse(p, id, points, f, cs, n - 1);
      ChainStep(p, id, points, f, cs, n - 1);
      ChainBound(p, id, points, f, cs, n - 1);
    }
  }

  /** The pieces from the `i`-th to the `k`-th. */
  function Pieces(id: BlockId, n: BlockId, i: nat, k: int): seq<BlockId>
    decreases k + 1
  {
    if i > k then [] else Pieces(id, n, i, k - 1) + [Piece(id, n, k)]
  }

  function Concat(p: Cfg, bs: seq<BlockId>): seq<Inst> {
    if bs == [] then [] else Concat(p, bs[..|bs| - 1]) + Insts(p, bs[|bs| - 1])
  }

  lemma ConcatSnoc(p: Cfg, bs: seq<BlockId>, b: BlockId)
    ensures Concat(p, bs + [b]) == Concat(p, bs) + Insts(p, b)
  {
    assert (bs + [b])[..|bs|] == bs;
  }

  lemma TakeTo<T>(s: seq<T>, a: nat, b: nat)
    requires a <= b <= |s|
    ensures s[..a] + s[a..b] == s[..b]
  {
  }

  /** The pieces hold the original instructions, in order. */
  lemma {:induction false} PiecesConcat(p: Cfg, id: BlockId, points: seq<nat>, f: EdgeId, cs: seq<Cfg>, i: nat)
    requires IsChain(p, id, points, f, cs) && |cs| == |points| + 1 && i <= |points|
    ensures End(points, |p.blocks[id]|, |points|, i) <= |p.blocks[id]|
    ensures Concat(cs[|points|], Pieces(id, p.bound, 0, i)) == p.blocks[id][..End(points, |p.blocks[id]|, |points|, i)]
  {
    var q, insts := cs[|points|], p.blocks[id];
    PieceHolds(p, id, points, f, cs, |points|, i);
    if i == 0 {
      ConcatSnoc(q, [], id);
      assert [] + [id] == [id] && Pieces(id, p.bound, 0, -1) == [];
    } else {
      PiecesConcat(p, id, points, f, cs, i - 1);
      ConcatNext(q, id, p.bound, insts, i, Start(points, i), End(points, |insts|, |points|, i));
    }
  }

  lemma ConcatNext(q: Cfg, id: BlockId, n: BlockId, insts: seq<Inst>, i: nat, from: nat, to: nat)
    requires i > 0 && from <= to <= |insts| && Concat(q, Pieces(id, n, 0, i - 1)) == insts[..from]
    requires Insts(q, Piece(id, n, i)) == insts[from..to]
    ensures Concat(q, Pieces(id, n, 0, i)) == insts[..to]
  {
    TakeTo(insts, from, to);
    ConcatSnoc(q, Pieces(id, n, 0, i - 1), Piece(id, n, i));
  }

  /** Where a position of the split program was before. */
  function OriginAll(p: Cfg, id: BlockId, points: seq<nat>, n: nat, a: Pos): Pos
    requires n <= |points|
  {
    if p.bound <= a.block < p.bound + n then Pos(id, points[a.block - p.bound] + a.idx) else a
  }

  /** Undoing the last split and then the others. */
  lemma OriginLast(p: Cfg, id: BlockId, points: seq<nat>, n: nat, a: Pos)
    requires n < |points| && id < p.bound && Start(points, n) <= points[n]
    ensures OriginAll(p, id, points, n + 1, a) ==
            OriginAll(p, id, points, n, Origin(Piece(id, p.bound, n), points[n] - Start(points, n), p.bound + n, a))
  {
  }

  /** What is quiet up to a point is quiet in the piece that is split there. */
  lemma PieceQuiet(p: Cfg, id: BlockId, points: seq<nat>, f: EdgeId, cs: seq<Cfg>, n: nat)
    requires IsChain(p, id, points, f, cs) && n + 1 < |cs| && HeadQuiet(p, id, points[n])
    ensures Start(points, n) <= points[n] && HeadQuiet(cs[n], Piece(id, p.bound, n), points[n] - Start(points, n))
    ensures n > 0 ==> HeadQuiet(p, id, points[n - 1])
  {
    var q, last, base := cs[n], Piece(id, p.bound, n), Start(points, n);
    ChainStep(p, id, points, f, cs, n);
    PieceHolds(p, id, points, f, cs, n, n);
    if exists e :: e in q.edges && q.edges[e].source == last && IsUnwind(q.edges[e]) {
      var e :| e in q.edges && q.edges[e].source == last && IsUnwind(q.edges[e]);
      PieceUnwind(p, id, points, f, cs, n, e);
      forall i | 0 <= i < points[n] - base && i < |Insts(q, last)| ensures !Insts(q, last)[i].mayUnwind {
        assert Insts(q, last)[i] == Insts(p, id)[base + i];
      }
    }
  }

  /** An unwind edge out of the last piece is one of the block's own. */
  lemma PieceUnwind(p: Cfg, id: BlockId, points: seq<nat>, f: EdgeId, cs: seq<Cfg>, n: nat, e: EdgeId)
    requires IsChain(p, id, points, f, cs) && n < |cs|
    requires e in cs[n].edges && cs[n].edges[e].source == Piece(id, p.bound, n) && IsUnwind(cs[n].edges[e])
    ensures e in p.edges && p.edges[e].source == id && IsUnwind(p.edges[e])
  {
    NothingElse(p, id, points, f, cs, n);
    if e in p.edges {
      OldEdges(p, id, points, f, cs, n);
      assert p.edges[e].source in p.blocks;
    } else {
      FallsThrough(p, id, points, f, cs, n, e - f);
    }
  }

  lemma {:induction false} BackOnce(q: Cfg, sem: Semantics, last: BlockId, at: nat, f: EdgeId, next: Cfg, r: Run) returns (s: Run)
    requires EdgesBelow(q, f) && last in q.blocks && last in q.out && at <= |q.blocks[last]| && HeadQuiet(q, last, at)
    requires next == SplitOf(q, last, at, f) && IsRun(next, r)
    ensures IsRun(q, s) && s.at == Origin(last, at, q.bound, r.at) && StoreOf(q, sem, s) == StoreOf(next, sem, r)
  {
    s := RunsBack(q, sem, last, at, f, r);
  }

  lemma {:induction false} ForwardOnce(q: Cfg, sem: Semantics, last: BlockId, at: nat, f: EdgeId, next: Cfg, r: Run) returns (s: Run)
    requires EdgesBelow(q, f) && last in q.blocks && last in q.out && at <= |q.blocks[last]| && HeadQuiet(q, last, at)
    requires next == SplitOf(q, last, at, f) && IsRun(q, r)
    ensures IsRun(next, s) && Origin(last, at, q.bound, s.at) == r.at && StoreOf(next, sem, s) == StoreOf(q, sem, r)
  {
    RunInRange(q, r);
    s := RunsForward(q, sem, last, at, f, r);
  }

  lemma {:induction false} BackStep(p: Cfg, sem: Semantics, id: BlockId, points: seq<nat>, f: EdgeId, cs: seq<Cfg>, n: nat, r: Run)
    returns (s: Run)
    requires IsChain(p, id, points, f, cs) && n + 1 < |cs| && HeadQuiet(p, id, points[n]) && IsRun(cs[n + 1], r)
    ensures IsRun(cs[n], s) && OriginAll(p, id, points, n, s.at) == OriginAll(p, id, points, n + 1, r.at)
    ensures StoreOf(cs[n], sem, s) == StoreOf(cs[n + 1], sem, r)
  {
    PieceQuiet(p, id, points, f, cs, n);
    ChainWellFormed(p, id, points, f, cs, n);
    ChainStep(p, id, points, f, cs, n);
    ChainBound(p, id, points, f, cs, n);
    var a := r.at;
    OriginLast(p, id, points, n, a);
    s := BackOnce(cs[n], sem, Piece(id, p.bound, n), points[n] - Start(points, n), f + n, cs[n + 1], r);
    assert s.at == Origin(Piece(id, p.bound, n), points[n] - Start(points, n), p.bound + n, a);
  }

  /** Every run of the program split at several points is one of the original. */
  lemma {:induction false} AllRunsBack(p: Cfg, sem: Semantics, id: BlockId, points: seq<nat>, f: EdgeId, cs: seq<Cfg>, n: nat, r: Run)
    returns (s: Run)
    requires IsChain(p, id, points, f, cs) && n < |cs| && (n > 0 ==> HeadQuiet(p, id, points[n - 1])) && IsRun(cs[n], r)
    ensures IsRun(p, s) && s.at == OriginAll(p, id, points, n, r.at) && StoreOf(p, sem, s) == StoreOf(cs[n], sem, r)
    decreases n
  {
    if n == 0 {
      s := r;
    } else {
      s := BackStep(p, sem, id, points, f, cs, n - 1, r);
      PieceQuiet(p, id, points, f, cs, n - 1);
      s := AllRunsBack(p, sem, id, points, f, cs, n - 1, s);
    }
  }

  lemma {:induction false} ForwardStep(p: Cfg, sem: Semantics, id: BlockId, points: seq<nat>, f: EdgeId, cs: seq<Cfg>, n: nat, r: Run)
    returns (s: Run)
    requires IsChain(p, id, points, f, cs) && n + 1 < |cs| && HeadQuiet(p, id, points[n]) && IsRun(cs[n], r)
    ensures IsRun(cs[n + 1], s) && OriginAll(p, id, points, n + 1, s.at) == OriginAll(p, id, points, n, r.at)
    ensures StoreOf(cs[n + 1], sem, s) == StoreOf(cs[n], sem, r)
  {
    PieceQuiet(p, id, points, f, cs, n);
    ChainWellFormed(p, id, points, f, cs, n);
    ChainStep(p, id, points, f, cs, n);
    ChainBound(p, id, points, f, cs, n);
    s := ForwardOnce(cs[n], sem, Piece(id, p.bound, n), points[n] - Start(points, n), f + n, cs[n + 1], r);
    var a := s.at;
    assert r.at == Origin(Piece(id, p.bound, n), points[n] - Start(points, n), p.bound + n, a);
    OriginLast(p, id, points, n, a);
  }

  /** Every run of the original is one of the program split at several points. */
  lemma {:induction false} AllRunsForward(p: Cfg, sem: Semantics, id: BlockId, points: seq<nat>, f: EdgeId, cs: seq<Cfg>, n: nat, r: Run)
    returns (s: Run)
    requires IsChain(p, id, points, f, cs) && n < |cs| && (n > 0 ==> HeadQuiet(p, id, points[n - 1])) && IsRun(p, r)
    ensures IsRun(cs[n], s) && OriginAll(p, id, points, n, s.at) == r.at && StoreOf(cs[n], sem, s) == StoreOf(p, sem, r)
    decreases n
  {
    if n == 0 {
      s := r;
    } else {
      PieceQuiet(p, id, points, f, cs, n - 1);
      s := AllRunsForward(p, sem, id, points, f, cs, n - 1, r);
      s := ForwardStep(p, sem, id, points, f, cs, n - 1, s);
    }
  }

  function PieceIndex(id: BlockId, n: BlockId, b: BlockId): int { if b == id then 0 else b - n + 1 }

  lemma {:induction false} PieceIn(id: BlockId, n: BlockId, i: nat, k: int, b: BlockId)
    requires id < n
    ensures b in Pieces(id, n, i, k) <==> (b == id || b >= n) && i <= PieceIndex(id, n, b) <= k
    decreases k + 1
  {
    if i <= k {
      PieceIn(id, n, i, k - 1, b);
    }
  }

  lemma {:induction false} PiecesUnique(id: BlockId, n: BlockId, i: nat, k: int)
    requires id < n
    ensures Unique(Pieces(id, n, i, k))
    decreases k + 1
  {
    if i <= k {
      PiecesUnique(id, n, i, k - 1);
      PieceIn(id, n, i, k - 1, Piece(id, n, k));
      var less := Pieces(id, n, i, k - 1);
      assert forall j :: 0 <= j < |less| ==> less[j] in less;
    }
  }

  /** The record after splitting: every piece but the last became itself and the pieces after it. */
  function PieceMap(id: BlockId, n: BlockId, k: nat): Ids {
    map b | b in Pieces(id, n, 0, k - 1) && PieceIndex(id, n, b) >= 0 :: Pieces(id, n, PieceIndex(id, n, b), k)
  }

  lemma {:induction false} ChaseLast(s: seq<Id>, last: Id, n: Id)
    requires s != [] && s[|s| - 1] == last && forall i :: 0 <= i < |s| - 1 ==> s[i] != last
    ensures Chase(map[last := [last, n]], s) == s + [n]
  {
    var m: Ids := map[last := [last, n]];
    var less := s[..|s| - 1];
    ChaseUntouched(m, less);
    assert s == less + [last];
  }

  lemma {:induction false} ChaseUntouched(m: Ids, s: seq<Id>)
    requires forall i :: 0 <= i < |s| ==> Image(m, s[i]) == [s[i]]
    ensures Chase(m, s) == s
  {
    if s != [] {
      ChaseUntouched(m, s[..|s| - 1]);
      assert s == s[..|s| - 1] + [s[|s| - 1]];
    }
  }

  /** Composing one more split of the last piece into the record. */
  lemma {:induction false} ComposePieces(id: BlockId, n: BlockId, k: nat)
    requires id < n
    ensures var last := Piece(id, n, k);
            Composed(PieceMap(id, n, k), map[last := [last, n + k]]) == PieceMap(id, n, k + 1)
  {
    var last := Piece(id, n, k);
    var left, right := Composed(PieceMap(id, n, k), map[last := [last, n + k]]), PieceMap(id, n, k + 1);
    forall b
      ensures b in left <==> b in right
      ensures b in left && b in right ==> left[b] == right[b]
    {
      ComposedPiece(id, n, k, b);
    }
  }

  lemma ComposedPiece(id: BlockId, n: BlockId, k: nat, b: BlockId)
    requires id < n
    ensures var last := Piece(id, n, k);
            var left, right := Composed(PieceMap(id, n, k), map[last := [last, n + k]]), PieceMap(id, n, k + 1);
            (b in left <==> b in right) && (b in left && b in right ==> left[b] == right[b])
  {
    PieceIn(id, n, 0, k - 1, b);
    PieceIn(id, n, 0, k, b);
    if b in Pieces(id, n, 0, k) {
      ComposePiece(id, n, k, b);
      LastTwoPieces(id, n, k);
    }
  }

  lemma {:induction false} ComposePiece(id: BlockId, n: BlockId, k: nat, b: BlockId)
    requires id < n && b in Pieces(id, n, 0, k) && 0 <= PieceIndex(id, n, b) <= k
    ensures var (last, j) := (Piece(id, n, k), PieceIndex(id, n, b));
            Dedup(Chase(map[last := [last, n + k]], Pieces(id, n, j, k))) == Pieces(id, n, j, k + 1)
  {
    hide Dedup, Chase, Unique, PieceIndex;
    var last, j := Piece(id, n, k), PieceIndex(id, n, b);
    var s := Pieces(id, n, j, k);
    PiecesUnique(id, n, j, k);
    PiecesUnique(id, n, j, k + 1);
    ChaseLast(s, last, n + k);
    DedupSame(Pieces(id, n, j, k + 1));
  }

  lemma {:induction false} LastTwoPieces(id: BlockId, n: BlockId, k: nat)
    ensures Pieces(id, n, k, k + 1) == [Piece(id, n, k), n + k]
  {
    assert Pieces(id, n, k, k - 1) == [];
    assert Pieces(id, n, k, k) == [] + [Piece(id, n, k)];
  }

  /** Composing the created blocks of one more split. */
  lemma {:induction false} ComposeCreatedPieces(id: BlockId, n: BlockId, k: nat)
    requires id < n
    ensures CreatedAfter(Pieces(id, n, 1, k), PieceMap(id, n, k + 1), [n + k]) == Pieces(id, n, 1, k + 1)
  {
    if k == 0 {
      FirstCreatedPiece(id, n);
    } else {
      ChaseCreated(id, n, k + 1, k);
      PieceIn(id, n, 1, k + 1, n + k);
      PushNew(Pieces(id, n, 1, k + 1), n + k);
    }
  }

  lemma {:induction false} FirstCreatedPiece(id: BlockId, n: BlockId)
    ensures CreatedAfter(Pieces(id, n, 1, 0), PieceMap(id, n, 1), [n]) == Pieces(id, n, 1, 1)
  {
    assert Pieces(id, n, 1, 0) == [] && Pieces(id, n, 1, 1) == [] + [n];
    assert Chase(PieceMap(id, n, 1), []) == [] && Dedup([]) == [];
    PushNew([], n);
  }

  lemma {:induction false} PushNew(run: seq<Id>, x: Id)
    ensures PushAll(run, [x]) == PushUnique(run, x)
  {
    assert [x][..0] == [];
    assert PushAll(run, []) == run;
  }

  lemma {:induction false} ChaseCreated(id: BlockId, n: BlockId, k: nat, i: nat)
    requires id < n && 1 <= i < k
    ensures Dedup(Chase(PieceMap(id, n, k), Pieces(id, n, 1, i))) == Pieces(id, n, 1, k)
  {
    var m, b := PieceMap(id, n, k), Piece(id, n, i);
    PieceIn(id, n, 0, k - 1, b);
    assert Image(m, b) == Pieces(id, n, i, k);
    PiecesUnique(id, n, 1, k);
    assert Pieces(id, n, 1, 0) == [];
    if i == 1 {
      assert Pieces(id, n, 1, 1) == [] + [b];
      ChaseOne(m, b);
      DedupSame(Pieces(id, n, 1, k));
    } else {
      var less := Pieces(id, n, 1, i - 1);
      ChaseCreated(id, n, k, i - 1);
      assert Pieces(id, n, 1, i)[..|less|] == less;
      PushAllJoin([], Chase(m, less), Pieces(id, n, i, k));
      forall j | 0 <= j < |Pieces(id, n, i, k)| ensures Pieces(id, n, i, k)[j] in Pieces(id, n, 1, k) {
        PieceIn(id, n, i, k, Pieces(id, n, i, k)[j]);
        PieceIn(id, n, 1, k, Pieces(id, n, i, k)[j]);
      }
      PushNothingNew(Pieces(id, n, 1, k), Pieces(id, n, i, k));
    }
  }

  /** Edges that stay themselves. */
  function KeptMap(edges: seq<EdgeId>): Ids { map e | e in edges :: [e] }

  lemma {:induction false} ComposeKept(edges: seq<EdgeId>)
    ensures Composed(KeptMap(edges), KeptMap(edges)) == KeptMap(edges)
  {
    forall e | e in edges ensures Dedup(Chase(KeptMap(edges), [e])) == [e] {
      ChaseOne(KeptMap(edges), e);
      DedupSame([e]);
    }
  }

  lemma {:induction false} ComposeCreatedKept(edges: seq<EdgeId>, created: seq<EdgeId>, f: EdgeId)
    requires Unique(created) && f !in created
    ensures CreatedAfter(created, KeptMap(edges), [f]) == created + [f]
  {
    ChaseUntouched(KeptMap(edges), created);
    DedupSame(created);
    PushNew(created, f);
  }
}
