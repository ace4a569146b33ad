/** Splitting blocks in place: blocks, edges, adjacency, exception metadata, and the record of what became what. */
module GraphMutation {
  import opened Wrappers
  import opened Sequences
  import opened EdgeKinds
  import opened Program
  import opened Rewrites
  import opened Splits
  import opened SplitPoints

  datatype Body = Unknown | Known(blocks: set<BlockId>)

  datatype Handler = Handler(entry: BlockId, body: Body)

  datatype Region = Region(protectedBlocks: set<BlockId>, handlers: seq<Handler>)

  datatype SplitPointError =
    | OutOfBounds(point: nat, count: nat)
    | NotStrictlyIncreasing(previous: nat, point: nat)

  /** A set of blocks once `tail` belongs wherever `head` does. */
  function Extend(s: set<BlockId>, head: BlockId, tail: BlockId): set<BlockId> { if head in s then s + {tail} else s }

  function ExtendHandler(h: Handler, head: BlockId, tail: BlockId): Handler {
    match h.body
    case Unknown => h
    case Known(blocks) => h.(body := Known(Extend(blocks, head, tail)))
  }

  function ExtendRegion(r: Region, head: BlockId, tail: BlockId): Region {
    Region(Extend(r.protectedBlocks, head, tail),
           seq(|r.handlers|, i requires 0 <= i < |r.handlers| => ExtendHandler(r.handlers[i], head, tail)))
  }

  function ExtendRegions(rs: seq<Region>, head: BlockId, tail: BlockId): seq<Region> {
    seq(|rs|, i requires 0 <= i < |rs| => ExtendRegion(rs[i], head, tail))
  }

  /** The block a cleanup resumes from, once `tail` holds the exits of `head`. */
  function Resume(from: Option<BlockId>, head: BlockId, tail: BlockId): Option<BlockId> {
    if from == Some(head) then Some(tail) else from
  }

  function ResumeAll(rs: seq<Option<BlockId>>, head: BlockId, tail: BlockId): seq<Option<BlockId>> {
    seq(|rs|, i requires 0 <= i < |rs| => Resume(rs[i], head, tail))
  }

  /** The sets after `k` splits of the last piece. */
  function ExtendTo(s: set<BlockId>, id: BlockId, n: BlockId, k: nat): set<BlockId> {
    if k == 0 then s else Extend(ExtendTo(s, id, n, k - 1), Piece(id, n, k - 1), Piece(id, n, k))
  }

  function RegionsTo(rs: seq<Region>, id: BlockId, n: BlockId, k: nat): seq<Region> {
    if k == 0 then rs else ExtendRegions(RegionsTo(rs, id, n, k - 1), Piece(id, n, k - 1), Piece(id, n, k))
  }

  function CleanupsTo(rs: seq<Option<BlockId>>, id: BlockId, n: BlockId, k: nat): seq<Option<BlockId>> {
    if k == 0 then rs else ResumeAll(CleanupsTo(rs, id, n, k - 1), Piece(id, n, k - 1), Piece(id, n, k))
  }

  /** Every piece belongs wherever the block did, and nothing else changes place. */
  lemma {:induction false} ExtendToMeans(s: set<BlockId>, id: BlockId, n: BlockId, k: nat, b: BlockId)
    requires id < n && forall x :: x in s ==> x < n
    ensures b in ExtendTo(s, id, n, k) <==> b in s || (id in s && n <= b < n + k)
  {
    if k > 0 {
      ExtendToMeans(s, id, n, k - 1, b);
      ExtendToMeans(s, id, n, k - 1, Piece(id, n, k - 1));
    }
  }

  lemma {:induction false} RegionsToMeans(rs: seq<Region>, id: BlockId, n: BlockId, k: nat, i: nat)
    requires i < |rs|
    ensures |RegionsTo(rs, id, n, k)| == |rs|
    ensures var r := RegionsTo(rs, id, n, k)[i];
            && r.protectedBlocks == ExtendTo(rs[i].protectedBlocks, id, n, k) && |r.handlers| == |rs[i].handlers|
            && forall j :: 0 <= j < |r.handlers| ==>
                 r.handlers[j] == if rs[i].handlers[j].body.Unknown? then rs[i].handlers[j]
                                  else rs[i].handlers[j].(body := Known(ExtendTo(rs[i].handlers[j].body.blocks, id, n, k)))
  {
    if k > 0 {
      RegionsToMeans(rs, id, n, k - 1, i);
    }
  }

  /** A cleanup that resumed from the block resumes from its last piece; every other resumes where it did. */
  lemma {:induction false} CleanupsToMeans(rs: seq<Option<BlockId>>, id: BlockId, n: BlockId, k: nat, i: nat)
    requires i < |rs| && id < n && (rs[i].Some? ==> rs[i].value < n)
    ensures |CleanupsTo(rs, id, n, k)| == |rs|
    ensures CleanupsTo(rs, id, n, k)[i] == if rs[i] == Some(id) then Some(Piece(id, n, k)) else rs[i]
  {
    if k > 0 {
      CleanupsToMeans(rs, id, n, k - 1, i);
    }
  }

  /** A set of blocks once the pieces numbered `n` up to `n + k` belong wherever `id` does, and nothing else. */
  ghost predicate Belongs(before: set<BlockId>, after: set<BlockId>, id: BlockId, n: BlockId, k: nat) {
    (forall x :: x in before ==> x < n) ==> forall b :: b in after <==> b in before || (id in before && n <= b < n + k)
  }

  ghost predicate BodyBelongs(before: Body, after: Body, id: BlockId, n: BlockId, k: nat) {
    match before
    case Unknown => after == Unknown
    case Known(blocks) => after.Known? && Belongs(blocks, after.blocks, id, n, k)
  }

  ghost predicate RegionBelongs(before: Region, after: Region, id: BlockId, n: BlockId, k: nat) {
    && Belongs(before.protectedBlocks, after.protectedBlocks, id, n, k) && |after.handlers| == |before.handlers|
    && forall j :: 0 <= j < |before.handlers| ==>
         after.handlers[j].entry == before.handlers[j].entry && BodyBelongs(before.handlers[j].body, after.handlers[j].body, id, n, k)
  }

  /** Exception metadata after `k` splits of block `id` into blocks numbered from `n`: every piece is protected, and
      handled, wherever the block was, and a cleanup that resumed from the block resumes from its last piece. */
  ghost predicate MetadataSplit(rs: seq<Region>, rs': seq<Region>, cs: seq<Option<BlockId>>, cs': seq<Option<BlockId>>, id: BlockId,
                                n: BlockId, k: nat) {
    && |rs'| == |rs| && (forall i :: 0 <= i < |rs| ==> RegionBelongs(rs[i], rs'[i], id, n, k))
    && |cs'| == |cs| && forall i :: 0 <= i < |cs| ==>
         (cs[i].Some? ==> cs[i].value < n) ==> cs'[i] == if cs[i] == Some(id) then Some(Piece(id, n, k)) else cs[i]
  }

  lemma ToBelongs(s: set<BlockId>, id: BlockId, n: BlockId, k: nat)
    requires id < n
    ensures Belongs(s, ExtendTo(s, id, n, k), id, n, k)
  {
    if forall x :: x in s ==> x < n {
      forall b: BlockId ensures b in ExtendTo(s, id, n, k) <==> b in s || (id in s && n <= b < n + k) {
        ExtendToMeans(s, id, n, k, b);
      }
    }
  }

  lemma ToRegionBelongs(rs: seq<Region>, id: BlockId, n: BlockId, k: nat, i: nat)
    requires id < n && i < |rs|
    ensures |RegionsTo(rs, id, n, k)| == |rs| && RegionBelongs(rs[i], RegionsTo(rs, id, n, k)[i], id, n, k)
  {
    hide Belongs;
    RegionsToMeans(rs, id, n, k, i);
    ToBelongs(rs[i].protectedBlocks, id, n, k);
    forall j | 0 <= j < |rs[i].handlers| && rs[i].handlers[j].body.Known?
      ensures Belongs(rs[i].handlers[j].body.blocks, ExtendTo(rs[i].handlers[j].body.blocks, id, n, k), id, n, k)
    {
      ToBelongs(rs[i].handlers[j].body.blocks, id, n, k);
    }
  }

  lemma {:induction false} ToLengths(rs: seq<Region>, cs: seq<Option<BlockId>>, id: BlockId, n: BlockId, k: nat)
    ensures |RegionsTo(rs, id, n, k)| == |rs| && |CleanupsTo(cs, id, n, k)| == |cs|
  {
    if k > 0 {
      ToLengths(rs, cs, id, n, k - 1);
    }
  }

  lemma ToSplit(rs: seq<Region>, cs: seq<Option<BlockId>>, id: BlockId, n: BlockId, k: nat)
    requires id < n
    ensures MetadataSplit(rs, RegionsTo(rs, id, n, k), cs, CleanupsTo(cs, id, n, k), id, n, k)
  {
    hide RegionBelongs;
    ToLengths(rs, cs, id, n, k);
    forall i | 0 <= i < |rs| ensures RegionBelongs(rs[i], RegionsTo(rs, id, n, k)[i], id, n, k) {
      ToRegionBelongs(rs, id, n, k, i);
    }
    forall i | 0 <= i < |cs| && (cs[i].Some? ==> cs[i].value < n)
      ensures CleanupsTo(cs, id, n, k)[i] == if cs[i] == Some(id) then Some(Piece(id, n, k)) else cs[i]
    {
      CleanupsToMeans(cs, id, n, k, i);
    }
  }

  /** The first point that lies beyond the block or does not follow the one before it. */
  function FirstBad(points: seq<nat>, previous: Option<nat>, count: nat): Option<SplitPointError> {
    if points == [] then None
    else if points[0] > count then Some(OutOfBounds(points[0], count))
    else if previous.Some? && points[0] <= previous.value then Some(NotStrictlyIncreasing(previous.value, points[0]))
    else FirstBad(points[1..], Some(points[0]), count)
  }

  /** There is no bad point exactly when the points strictly increase within the block. */
  lemma {:induction false} NoneBad(points: seq<nat>, previous: Option<nat>, count: nat)
    ensures FirstBad(points, previous, count).None? <==>
            && Increasing(points) && (forall i :: 0 <= i < |points| ==> points[i] <= count)
            && (previous.Some? && points != [] ==> previous.value < points[0])
  {
    if points != [] {
      NoneBad(points[1..], Some(points[0]), count);
      assert forall i :: 1 <= i < |points| ==> points[i] == points[1..][i - 1];
      if Increasing(points[1..]) && (|points| > 1 ==> points[0] < points[1..][0]) {
        assert forall j :: 1 <= j < |points| ==> points[1..][0] <= points[j];
      }
    }
  }

  /** What a split changes, field by field. */
  lemma SplitFields(p: Cfg, id: BlockId, at: nat, f: EdgeId)
    requires CanSplit(p, id, at, f) && id in p.out
    ensures var (q, n) := (SplitOf(p, id, at, f), p.bound);
            && n !in p.blocks && q.blocks.Keys == p.blocks.Keys + {n} && n != id
            && q.blocks[id] == p.blocks[id][..at] && q.blocks[n] == p.blocks[id][at..]
            && (forall b :: b in p.blocks && b != id ==> q.blocks[b] == p.blocks[b])
            && q.edges.Keys == p.edges.Keys + {f} && q.edges[f] == Edge(id, n, EdgeKind.Fallthrough)
            && (forall e :: e in p.edges ==>
                  && q.edges[e].target == p.edges[e].target && q.edges[e].kind == p.edges[e].kind
                  && q.edges[e].source == if p.edges[e].source == id then n else p.edges[e].source)
            && id in q.out && n in q.out && q.out[n] == p.out[id] && q.out[id] == [f]
  {
  }

  /** Every point before the `i`-th lies within the block and follows the one before it. */
  predicate FineBefore(points: seq<nat>, i: nat, count: nat)
    requires i <= |points|
  {
    forall j :: 0 <= j < i ==> points[j] <= count && (j > 0 ==> points[j - 1] < points[j])
  }

  /** The error is that of the first bad point, and lying outside the block comes before not following. */
  lemma {:induction false} FirstBadExact(points: seq<nat>, i: nat, count: nat)
    requires i <= |points| && FineBefore(points, i, count)
    ensures match FirstBad(points[i..], if i == 0 then None else Some(points[i - 1]), count)
            case None => FineBefore(points, |points|, count)
            case Some(OutOfBounds(point, c)) =>
              c == count && point > count && exists k :: i <= k < |points| && points[k] == point && FineBefore(points, k, count)
            case Some(NotStrictlyIncreasing(previous, point)) =>
              point <= count && point <= previous
              && exists k :: i <= k < |points| && k > 0 && points[k - 1] == previous && points[k] == point && FineBefore(points, k, count)
    decreases |points| - i
  {
    if i < |points| {
      assert points[i..][0] == points[i] && points[i..][1..] == points[i + 1..];
      if points[i] <= count && (i > 0 ==> points[i - 1] < points[i]) {
        FirstBadExact(points, i + 1, count);
      }
    }
  }

  class MutableCfg {
    var entry: BlockId
    var bound: nat
    var blocks: map<BlockId, seq<Inst>>
    var edgeBound: nat
    var edges: map<EdgeId, Edge>
    var out: map<BlockId, seq<EdgeId>>
    var inc: map<BlockId, seq<EdgeId>>
    var regions: seq<Region>
    var cleanups: seq<Option<BlockId>>

    ghost function View(): Cfg
      reads this
    {
      Cfg(entry, bound, blocks, edges, out, inc)
    }

    ghost predicate Valid()
      reads this
    {
      EdgesBelow(View(), edgeBound)
    }

    method NewBlock(insts: seq<Inst>) returns (b: BlockId)
      modifies this`bound, this`blocks, this`out, this`inc
      ensures b == old(bound) && bound == b + 1 && blocks == old(blocks)[b := insts]
      ensures out == old(out)[b := []] && inc == old(inc)[b := []]
    {
      b := bound;
      bound := bound + 1;
      blocks, out, inc := blocks[b := insts], out[b := []], inc[b := []];
    }

    method AddEdge(source: BlockId, target: BlockId, kind: EdgeKind) returns (e: EdgeId)
      requires source in out && target in inc
      modifies this`edgeBound, this`edges, this`out, this`inc
      ensures e == old(edgeBound) && edgeBound == e + 1 && edges == old(edges)[e := Edge(source, target, kind)]
      ensures out == old(out)[source := old(out)[source] + [e]] && inc == old(inc)[target := old(inc)[target] + [e]]
    {
      e := edgeBound;
      edgeBound := e + 1;
      edges := edges[e := Edge(source, target, kind)];
      out, inc := out[source := out[source] + [e]], inc[target := inc[target] + [e]];
    }

    /** Moves every outgoing edge, in adjacency order; nothing when it would move them where they are. */
    method MoveOutgoingEdges(was: BlockId, source: BlockId)
      requires was in out && source in out
      requires forall i :: 0 <= i < |out[was]| ==> out[was][i] in edges
      modifies this`edges, this`out
      ensures was == source ==> edges == old(edges) && out == old(out)
      ensures was != source ==>
                && edges == (map e | e in old(edges) :: if e in old(out)[was] then old(edges)[e].(source := source) else old(edges)[e])
                && out == old(out)[source := old(out)[source] + old(out)[was]][was := []]
    {
      if was == source {
        return;
      }
      var moving := out[was];
      ghost var before := edges;
      for i := 0 to |moving|
        invariant edges == map e | e in before :: if e in moving[..i] then before[e].(source := source) else before[e]
        invariant out == old(out)
      {
        assert moving[..i + 1] == moving[..i] + [moving[i]];
        edges := edges[moving[i] := edges[moving[i]].(source := source)];
      }
      assert moving[..|moving|] == moving;
      out := out[source := out[source] + moving][was := []];
    }

    method ExtendExceptionMetadataToTail(head: BlockId, tail: BlockId)
      modifies this`regions, this`cleanups
      ensures regions == ExtendRegions(old(regions), head, tail) && cleanups == ResumeAll(old(cleanups), head, tail)
    {
      for i := 0 to |regions|
        invariant |regions| == |old(regions)| && cleanups == old(cleanups)
        invariant forall j :: 0 <= j < |regions| ==>
                    regions[j] == if j < i then ExtendRegion(old(regions)[j], head, tail) else old(regions)[j]
      {
        var region := regions[i];
        var handlers := region.handlers;
        for h := 0 to |handlers|
          invariant |handlers| == |region.handlers|
          invariant forall j :: 0 <= j < |handlers| ==>
                      handlers[j] == if j < h then ExtendHandler(region.handlers[j], head, tail) else region.handlers[j]
        {
          if handlers[h].body.Known? && head in handlers[h].body.blocks {
            handlers := handlers[h := handlers[h].(body := Known(handlers[h].body.blocks + {tail}))];
          }
        }
        assert handlers == ExtendRegion(region, head, tail).handlers;
        regions := regions[i := Region(if head in region.protectedBlocks then region.protectedBlocks + {tail}
                                       else region.protectedBlocks, handlers)];
      }
      assert regions == ExtendRegions(old(regions), head, tail);
      for i := 0 to |cleanups|
        invariant |cleanups| == |old(cleanups)| && regions == ExtendRegions(old(regions), head, tail)
        invariant forall j :: 0 <= j < |cleanups| ==>
                    cleanups[j] == if j < i then Resume(old(cleanups)[j], head, tail) else old(cleanups)[j]
      {
        if cleanups[i] == Some(head) {
          cleanups := cleanups[i := Some(tail)];
        }
      }
    }

    /** Splits a block, and records every identity that is affected. */
    method SplitBlock(id: BlockId, at: nat) returns (n: BlockId, mapping: Rewrite)
      requires Valid() && id in blocks && id in out && at <= |blocks[id]|
      modifies this
      ensures Valid() && n == old(bound) && edgeBound == old(edgeBound) + 1
      ensures View() == SplitOf(old(View()), id, at, old(edgeBound))
      ensures regions == ExtendRegions(old(regions), id, n) && cleanups == ResumeAll(old(cleanups), id, n)
      ensures fresh(mapping) && mapping.Valid() && mapping.blocks == map[id := [id, n]] && mapping.createdBlocks == [n]
      ensures mapping.edges == KeptMap(old(out)[id]) && mapping.createdEdges == [old(edgeBound)]
    {
      ghost var p, f := View(), edgeBound;
      var moved := out[id];
      n := SplitGraph(id, at);
      EdgesBelowNext(p, id, at, f, View());
      mapping := RecordSplit(id, n, moved, edgeBound - 1);
    }

    /** Moves the tail of a block and all its edges to a new block, which belongs wherever the block does. */
    method SplitGraph(id: BlockId, at: nat) returns (n: BlockId)
      requires Valid() && id in blocks && id in out && at <= |blocks[id]|
      modifies this
      ensures n == old(bound) != id && edgeBound == old(edgeBound) + 1
      ensures View() == SplitOf(old(View()), id, at, old(edgeBound))
      ensures regions == ExtendRegions(old(regions), id, n) && cleanups == ResumeAll(old(cleanups), id, n)
    {
      ghost var p := View();
      OutExactly(p, id);
      assert id < bound && edgeBound !in edges;
      var tail := blocks[id][at..];
      blocks := blocks[id := blocks[id][..at]];
      n := NewBlock(tail);
      MoveOutgoingEdges(id, n);
      ExtendExceptionMetadataToTail(id, n);
      var f := AddEdge(id, n, Fallthrough);
      SplitParts(p, id, at, f, View());
    }

    /** Splits a block at ordered instruction offsets. A bad point leaves the graph unchanged. */
    method SplitBlockAtPoints(id: BlockId, points: seq<nat>)
      returns (error: Option<SplitPointError>, pieces: seq<BlockId>, mapping: Rewrite, ghost cs: seq<Cfg>)
      requires Valid() && id in blocks
      modifies this
      ensures error == FirstBad(points, None, |old(blocks)[id]|) && (error.Some? ==> unchanged(this))
      ensures error.None? ==>
                && Valid() && IsChain(old(View()), id, points, old(edgeBound), cs) && |cs| == |points| + 1 && View() == cs[|points|]
                && pieces == Pieces(id, old(bound), 0, |points|)
                && MetadataSplit(old(regions), regions, old(cleanups), cleanups, id, old(bound), |points|)
                && (forall b :: b in old(blocks) && b != id ==>
                      b in blocks && b in out && b in old(out) && blocks[b] == old(blocks)[b] && out[b] == old(out)[b])
                && id in old(out) && Records(mapping, id, old(bound), |points|, old(out)[id], old(edgeBound))
      ensures fresh(mapping)
    {
      ghost var p, f := View(), edgeBound;
      OutExactly(p, id);
      error := CheckPoints(points, |blocks[id]|);
      mapping := new Rewrite();
      pieces, cs := [id], [p];
      if error.Some? {
        return;
      }
      NoneBad(points, None, |blocks[id]|);
      PiecesNone(id, bound);
      var current, base := id, 0;
      for i := 0 to |points|
        invariant AtPoint(p, id, points, f, cs, i) && current == Piece(id, p.bound, i) && base == Start(points, i)
        invariant pieces == Pieces(id, p.bound, 0, i)
        invariant regions == RegionsTo(old(regions), id, p.bound, i) && cleanups == CleanupsTo(old(cleanups), id, p.bound, i)
        invariant fresh(mapping) && Records(mapping, id, p.bound, i, p.out[id], f)
      {
        var tail;
        tail, cs := SplitAtPoint(current, base, points, i, mapping, p, id, f, cs);
        pieces := pieces + [tail];
        current, base := tail, points[i];
      }
      ToSplit(old(regions), old(cleanups), id, p.bound, |points|);
      AllOthersKept(p, id, points, f, cs, View());
    }

    /** The graph is where `i` splits have brought it. */
    ghost predicate AtPoint(p: Cfg, id: BlockId, points: seq<nat>, f: EdgeId, cs: seq<Cfg>, i: nat)
      reads this
    {
      Valid() && edgeBound == f + i && |cs| == i + 1 && IsChain(p, id, points, f, cs) && View() == cs[i]
    }

    method SplitAtPoint(current: BlockId, base: nat, points: seq<nat>, i: nat, mapping: Rewrite, ghost p: Cfg, ghost id: BlockId,
                        ghost f: EdgeId, ghost cs: seq<Cfg>)
      returns (tail: BlockId, ghost more: seq<Cfg>)
      requires i < |points| && AtPoint(p, id, points, f, cs, i) && id in p.out && id < p.bound
      requires current == Piece(id, p.bound, i) && base == Start(points, i) && Records(mapping, id, p.bound, i, p.out[id], f)
      modifies this, mapping
      ensures AtPoint(p, id, points, f, more, i + 1) && tail == Piece(id, p.bound, i + 1)
      ensures regions == ExtendRegions(old(regions), current, tail) && cleanups == ResumeAll(old(cleanups), current, tail)
      ensures Records(mapping, id, p.bound, i + 1, p.out[id], f)
    {
      hide Cfg.WellFormed;
      ghost var n, moved := p.bound, p.out[id];
      ChainReady(p, id, points, f, cs, i);
      assert out[current] == moved && bound == n + i;
      var split;
      tail, split := SplitBlock(current, points[i] - base);
      ComposeStep(mapping, split, id, n, i, moved, f);
      more := ChainSnoc(p, id, points, f, cs, i, View());
    }
  }

  /** The record after `k` splits of a block whose edges were `moved`, with new edges numbered from `f`. */
  ghost predicate Records(m: Rewrite, id: BlockId, n: BlockId, k: nat, moved: seq<EdgeId>, f: EdgeId)
    reads m
  {
    && m.Valid() && m.blocks == PieceMap(id, n, k) && m.createdBlocks == Pieces(id, n, 1, k)
    && m.edges == (if k == 0 then map[] else KeptMap(moved)) && m.createdEdges == NewEdges(f, k)
  }

  lemma PiecesNone(id: BlockId, n: BlockId)
    ensures Pieces(id, n, 0, 0) == [id] && Pieces(id, n, 1, 0) == [] && PieceMap(id, n, 0) == map[]
  {
    assert Pieces(id, n, 0, -1) == [];
    assert Pieces(id, n, 0, 0) == [] + [id];
  }

  /** The fallthrough edges of `k` splits, numbered from `f`. */
  function NewEdges(f: EdgeId, k: nat): seq<EdgeId> { if k == 0 then [] else NewEdges(f, k - 1) + [f + k - 1] }

  lemma {:induction false} NewEdgesUnique(f: EdgeId, k: nat)
    ensures Unique(NewEdges(f, k)) && forall e :: e in NewEdges(f, k) ==> f <= e < f + k
  {
    if k > 0 {
      NewEdgesUnique(f, k - 1);
      var less := NewEdges(f, k - 1);
      assert forall i :: 0 <= i < |less| ==> less[i] in less;
    }
  }

  lemma ComposedEdges(moved: seq<EdgeId>, f: EdgeId, k: nat, edges: Ids)
    requires edges == if k == 0 then map[] else KeptMap(moved)
    ensures Composed(edges, KeptMap(moved)) == KeptMap(moved)
    ensures CreatedAfter(NewEdges(f, k), KeptMap(moved), [f + k]) == NewEdges(f, k + 1)
  {
    ComposeKept(moved);
    assert Composed(map[], KeptMap(moved)) == KeptMap(moved);
    NewEdgesUnique(f, k);
    ComposeCreatedKept(moved, NewEdges(f, k), f + k);
  }

  method ComposeStep(mapping: Rewrite, split: Rewrite, ghost id: BlockId, ghost n: BlockId, ghost k: nat, ghost moved: seq<EdgeId>,
                     ghost f: EdgeId)
    requires id < n && mapping != split && Records(mapping, id, n, k, moved, f) && split.Valid()
    requires split.blocks == map[Piece(id, n, k) := [Piece(id, n, k), n + k]] && split.createdBlocks == [n + k]
    requires split.edges == KeptMap(moved) && split.createdEdges == [f + k]
    modifies mapping
    ensures Records(mapping, id, n, k + 1, moved, f)
  {
    ComposePieces(id, n, k);
    ComposeCreatedPieces(id, n, k);
    ComposedEdges(moved, f, k, mapping.edges);
    mapping.Compose(split);
  }

  method CheckPoints(points: seq<nat>, count: nat) returns (error: Option<SplitPointError>)
    ensures error == FirstBad(points, None, count)
  {
    var previous := None;
    assert points[0..] == points;
    for i := 0 to |points|
      invariant FirstBad(points, None, count) == FirstBad(points[i..], previous, count)
    {
      assert points[i..][1..] == points[i + 1..];
      if points[i] > count {
        return Some(OutOfBounds(points[i], count));
      }
      if previous.Some? && points[i] <= previous.value {
        return Some(NotStrictlyIncreasing(previous.value, points[i]));
      }
      previous := Some(points[i]);
    }
    error := None;
  }

  /** The last piece can be split at the next point. */
  lemma ChainReady(p: Cfg, id: BlockId, points: seq<nat>, f: EdgeId, cs: seq<Cfg>, i: nat)
    requires IsChain(p, id, points, f, cs) && |cs| == i + 1 && i < |points|
    ensures var last, base := Piece(id, p.bound, i), Start(points, i);
            && base <= points[i] && last in cs[i].blocks && last in cs[i].out && points[i] - base <= |cs[i].blocks[last]|
            && cs[i].bound == p.bound + i && id in p.out && cs[i].out[last] == p.out[id] && id < p.bound
  {
    PieceHolds(p, id, points, f, cs, i, i);
    OldEdges(p, id, points, f, cs, i);
    ChainBound(p, id, points, f, cs, i);
    StartBeforeEnd(points, |p.blocks[id]|, |points|, i);
  }

  lemma ChainSnoc(p: Cfg, id: BlockId, points: seq<nat>, f: EdgeId, cs: seq<Cfg>, i: nat, r: Cfg) returns (more: seq<Cfg>)
    requires IsChain(p, id, points, f, cs) && |cs| == i + 1 && i < |points| && SplitsNext(p, id, points, f, cs[i], r, i)
    ensures more == cs + [r] && IsChain(p, id, points, f, more)
  {
    more := cs + [r];
    forall k | 0 <= k < |more| - 1 ensures SplitsNext(p, id, points, f, more[k], more[k + 1], k) {
      if k < i {
        ChainStep(p, id, points, f, cs, k);
      }
    }
  }

  /** The edges listed out of a block are exactly those that leave it. */
  lemma OutExactly(p: Cfg, id: BlockId)
    requires p.WellFormed() && id in p.blocks
    ensures id in p.out && forall e :: e in p.edges ==> (p.edges[e].source == id <==> e in p.out[id])
    ensures forall i :: 0 <= i < |p.out[id]| ==> p.out[id][i] in p.edges
  {
  }

  lemma SplitParts(p: Cfg, id: BlockId, at: nat, f: EdgeId, q: Cfg)
    requires CanSplit(p, id, at, f) && id in p.out
    requires q.entry == p.entry && q.bound == p.bound + 1
    requires q.blocks == p.blocks[id := p.blocks[id][..at]][p.bound := p.blocks[id][at..]]
    requires q.edges == (map e | e in p.edges :: if e in p.out[id] then p.edges[e].(source := p.bound) else p.edges[e])
                        [f := Edge(id, p.bound, Fallthrough)]
    requires q.out == p.out[p.bound := []][p.bound := [] + p.out[id]][id := []][id := [] + [f]]
    requires q.inc == p.inc[p.bound := []][p.bound := [] + [f]]
    ensures q == SplitOf(p, id, at, f)
  {
    OutExactly(p, id);
    var r := SplitOf(p, id, at, f);
    assert q.edges == r.edges;
    assert [] + p.out[id] == p.out[id] && [] + [f] == [f];
    assert q.out == r.out && q.inc == r.inc;
  }

  method RecordSplit(id: BlockId, n: BlockId, moved: seq<EdgeId>, f: EdgeId) returns (mapping: Rewrite)
    requires id != n
    ensures fresh(mapping) && mapping.Valid() && mapping.blocks == map[id := [id, n]] && mapping.createdBlocks == [n]
    ensures mapping.edges == KeptMap(moved) && mapping.createdEdges == [f]
  {
    mapping := new Rewrite();
    DedupSame([id, n]);
    mapping.RecordBlock(id, [id, n]);
    mapping.RecordCreatedBlock(n);
    for i := 0 to |moved|
      invariant fresh(mapping) && mapping.Valid() && mapping.edges == KeptMap(moved[..i])
      invariant mapping.blocks == map[id := [id, n]] && mapping.createdBlocks == [n] && mapping.createdEdges == []
    {
      DedupSame([moved[i]]);
      assert moved[..i + 1] == moved[..i] + [moved[i]];
      mapping.RecordEdge(moved[i], [moved[i]]);
    }
    assert moved[..|moved|] == moved;
    mapping.RecordCreatedEdge(f);
  }
}
