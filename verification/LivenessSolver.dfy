/** Sets of variables as bit rows over a sorted universe. */
module VariableRows {
  import opened Wrappers
  import opened Sequences
  import opened Program
  import opened Bits

  ghost function IndexIn(u: seq<Var>, v: Var): (i: nat)
    requires v in u
    ensures i < |u| && u[i] == v
  {
    var i :| 0 <= i < |u| && u[i] == v; i
  }

  /** The variables whose bit is set in `row`. */
  ghost function VarsOf(u: seq<Var>, row: Row): set<Var> {
    set v | v in u && Has(row, IndexIn(u, v))
  }

  /** A row of the universe: wide enough for it, with every bit above it zero. */
  ghost predicate IsRow(u: seq<Var>, words: nat, row: Row) {
    |row| == words && |u| <= 64 * words && forall i: nat {:trigger Has(row, i)} :: Has(row, i) ==> i < |u|
  }

  function InsertSorted(u: seq<Var>, v: Var): (r: seq<Var>)
    requires Increasing(u)
    ensures Increasing(r) && forall x :: x in r <==> x in u || x == v
  {
    if u == [] then [v]
    else
      var last := u[|u| - 1];
      if last == v then u
      else if last < v then u + [v]
      else
        var front := u[..|u| - 1];
        var below := InsertSorted(front, v);
        assert u == front + [last];
        assert forall i :: 0 <= i < |below| ==> below[i] in below;
        assert forall i :: 0 <= i < |front| ==> front[i] < last;
        below + [last]
  }

  method BinarySearch(u: seq<Var>, v: Var) returns (found: Option<nat>)
    requires Increasing(u)
    ensures found.Some? ==> found.value < |u| && u[found.value] == v
    ensures found.None? ==> v !in u
  {
    var lo, hi := 0, |u|;
    while lo < hi
      invariant 0 <= lo <= hi <= |u|
      invariant forall i :: 0 <= i < |u| && u[i] == v ==> lo <= i < hi
    {
      var mid := (lo + hi) / 2;
      if u[mid] < v {
        lo := mid + 1;
      } else if v < u[mid] {
        hi := mid;
      } else {
        return Some(mid);
      }
    }
    return None;
  }

  lemma BitOfVar(u: seq<Var>, row: Row, i: nat, value: bool)
    requires Increasing(u) && i < |u| && IsRow(u, |row|, row)
    ensures IsRow(u, |row|, SetBit(row, i, value))
    ensures VarsOf(u, SetBit(row, i, value)) == if value then VarsOf(u, row) + {u[i]} else VarsOf(u, row) - {u[i]}
  {
    forall v | v in u
      ensures v in VarsOf(u, SetBit(row, i, value)) <==> if v == u[i] then value else v in VarsOf(u, row)
    {
      SetBitHas(row, i, value, IndexIn(u, v));
    }
    forall k: nat ensures Has(SetBit(row, i, value), k) ==> k < |u| {
      SetBitHas(row, i, value, k);
    }
  }

  /** Sets or clears the bit of every variable of `vs` that the universe holds. */
  method WriteAll(u: seq<Var>, row: Row, vs: seq<Var>, value: bool) returns (r: Row)
    requires Increasing(u) && IsRow(u, |row|, row)
    requires Elems(vs) <= Elems(u)
    ensures IsRow(u, |row|, r)
    ensures VarsOf(u, r) == if value then VarsOf(u, row) + Elems(vs) else VarsOf(u, row) - Elems(vs)
  {
    r := row;
    for k := 0 to |vs|
      invariant IsRow(u, |row|, r)
      invariant VarsOf(u, r) == if value then VarsOf(u, row) + Elems(vs[..k]) else VarsOf(u, row) - Elems(vs[..k])
    {
      var found := BinarySearch(u, vs[k]);
      assert vs[k] in Elems(vs);
      TakeNext(vs, k);
      BitOfVar(u, r, found.value, value);
      r := SetBit(r, found.value, value);
      assert Elems(vs[..k + 1]) == Elems(vs[..k]) + {vs[k]};
    }
    TakeAll(vs);
  }

  lemma VarsOfZero(u: seq<Var>, words: nat)
    ensures VarsOf(u, Zero(words)) == {}
    ensures |u| <= 64 * words ==> IsRow(u, words, Zero(words))
  {
    forall i: nat ensures !Has(Zero(words), i) {
      ZeroHas(words, i);
    }
    forall v | v in u ensures !Has(Zero(words), IndexIn(u, v)) {
      ZeroHas(words, IndexIn(u, v));
    }
  }

  lemma VarsOfOr(u: seq<Var>, a: Row, b: Row)
    requires |a| == |b|
    ensures IsRow(u, |a|, a) && IsRow(u, |a|, b) ==> IsRow(u, |a|, Or(a, b))
    ensures VarsOf(u, Or(a, b)) == VarsOf(u, a) + VarsOf(u, b)
  {
    forall v | v in u ensures v in VarsOf(u, Or(a, b)) <==> v in VarsOf(u, a) || v in VarsOf(u, b) {
      OrHas(a, b, IndexIn(u, v));
    }
    forall i: nat ensures Has(Or(a, b), i) <==> Has(a, i) || Has(b, i) {
      OrHas(a, b, i);
    }
  }

  /** The set a row stands for. */
  method SetOf(u: seq<Var>, row: Row) returns (vars: set<Var>)
    requires Increasing(u) && IsRow(u, |row|, row)
    ensures vars == VarsOf(u, row)
  {
    var ones := OnesOf(row);
    assert forall k :: 0 <= k < |ones| ==> ones[k] in ones;
    vars := set k | 0 <= k < |ones| :: u[ones[k]];
    forall v ensures v in vars <==> v in VarsOf(u, row) {
      if v in vars {
        var k :| 0 <= k < |ones| && u[ones[k]] == v;
        assert ones[k] in ones && IndexIn(u, v) == ones[k];
      }
      if v in VarsOf(u, row) {
        assert IndexIn(u, v) in ones;
      }
    }
  }

  /** The word-parallel transfer of one block. */
  method Combine(out: Row, seed: Row, writes: Row, exposed: Row, unwind: Row, early: Row) returns (next: Row)
    requires |out| == |seed| == |writes| == |exposed| == |unwind| == |early|
    ensures |next| == |out|
    ensures forall i: nat {:trigger Has(next, i)} :: Has(next, i) <==>
              || ((Has(out, i) || Has(seed, i)) && !Has(writes, i))
              || Has(exposed, i)
              || (Has(unwind, i) && !Has(early, i))
  {
    next := [];
    for position := 0 to |out|
      invariant |next| == position
      invariant forall k :: 0 <= k < position ==>
                  next[k] == TransferWord(out[k], seed[k], writes[k], exposed[k], unwind[k], early[k])
    {
      next := next + [TransferWord(out[position], seed[position], writes[position], exposed[position],
                                   unwind[position], early[position])];
    }
    forall i: nat | i < 64 * |out|
      ensures Has(next, i) <==>
                || ((Has(out, i) || Has(seed, i)) && !Has(writes, i))
                || Has(exposed, i)
                || (Has(unwind, i) && !Has(early, i))
    {
      var (k, j) := BitSlot(i);
      TransferWordHas(out[k], seed[k], writes[k], exposed[k], unwind[k], early[k], j);
    }
  }
}

/** The bit-row worklist that solves liveness. */
module LivenessSolver {
  import opened Wrappers
  import opened Sequences
  import opened Program
  import opened Backward
  import opened BackwardSolve
  import opened RowTransfer
  import opened LivenessMeaning
  import opened Bits
  import opened VariableRows

  /** What a block does to liveness. */
  datatype BlockRow = BlockRow(exposed: Row, writes: Row, seeded: Row, early: Row, unwinding: bool)

  /** The universe holds everything the blocks below `n` read, write or are seeded with. */
  ghost predicate Covers(p: Cfg, seeds: Seeds, u: seq<Var>, n: nat) {
    && (forall b, i, v :: b in p.blocks && b < n && 0 <= i < |p.blocks[b]| && v in p.blocks[b][i].uses ==> v in u)
    && (forall b, i, v :: b in p.blocks && b < n && 0 <= i < |p.blocks[b]| && v in p.blocks[b][i].defs ==> v in u)
    && (forall b, v :: b in p.blocks && b < n && v in Seed(seeds, b) ==> v in u)
  }

  function InsertAllSorted(u: seq<Var>, vs: seq<Var>): (r: seq<Var>)
    requires Increasing(u)
    ensures Increasing(r) && forall x :: x in r <==> x in u || x in vs
    decreases |vs|
  {
    if vs == [] then u
    else
      assert vs == [vs[0]] + vs[1..];
      InsertAllSorted(InsertSorted(u, vs[0]), vs[1..])
  }

  method UniverseOf(p: Cfg, seeds: Seeds) returns (u: seq<Var>)
    requires p.WellFormed()
    ensures Increasing(u) && Covers(p, seeds, u, p.bound)
  {
    u := [];
    for b := 0 to p.bound
      invariant Increasing(u) && Covers(p, seeds, u, b)
    {
      if b in p.blocks {
        ghost var before := u;
        u := InsertAllSorted(u, Seed(seeds, b));
        var insts := p.blocks[b];
        for i := 0 to |insts|
          invariant Increasing(u) && (forall v :: v in before || v in Seed(seeds, b) ==> v in u)
          invariant forall k, v :: 0 <= k < i && (v in insts[k].uses || v in insts[k].defs) ==> v in u
        {
          u := InsertAllSorted(InsertAllSorted(u, insts[i].uses), insts[i].defs);
        }
      }
    }
  }

  /** The rows of one block. */
  method RowsOf(p: Cfg, seeds: Seeds, u: seq<Var>, words: nat, b: BlockId, hasUnwind: bool) returns (r: BlockRow)
    requires p.WellFormed() && b in p.blocks && Increasing(u) && Covers(p, seeds, u, p.bound) && |u| <= 64 * words
    requires hasUnwind == HasUnwind(p)
    ensures BlockRowOk(p, seeds, u, words, b, r)
  {
    var insts := Insts(p, b);
    CoversBlock(p, seeds, u, b);
    VarsOfZero(u, words);
    var seeded := WriteAll(u, Zero(words), Seed(seeds, b), true);
    var early, unwinding := Zero(words), false;
    if hasUnwind {
      early, unwinding := EarlyRow(u, words, insts);
    }
    var exposed, writes := ExposedRows(u, words, insts);
    r := BlockRow(exposed, writes, seeded, early, unwinding);
  }

  ghost predicate CoversInsts(u: seq<Var>, insts: seq<Inst>) {
    forall i :: 0 <= i < |insts| ==> Elems(insts[i].uses) + Elems(insts[i].defs) <= Elems(u)
  }

  lemma CoversBlock(p: Cfg, seeds: Seeds, u: seq<Var>, b: BlockId)
    requires p.WellFormed() && b in p.blocks && Covers(p, seeds, u, p.bound)
    ensures CoversInsts(u, Insts(p, b)) && Elems(Seed(seeds, b)) <= Elems(u)
  {
    assert b < p.bound;
    forall i, v | 0 <= i < |Insts(p, b)| && v in Elems(Insts(p, b)[i].uses) + Elems(Insts(p, b)[i].defs) ensures v in u {
    }
    forall v | v in Seed(seeds, b) ensures v in u {
    }
  }

  /** The upward-exposed reads and the writes of a block, in one backward walk. */
  method ExposedRows(u: seq<Var>, words: nat, insts: seq<Inst>) returns (exposed: Row, writes: Row)
    requires Increasing(u) && |u| <= 64 * words && CoversInsts(u, insts)
    ensures IsRow(u, words, exposed) && IsRow(u, words, writes)
    ensures VarsOf(u, exposed) == Exposed(insts, 0) && VarsOf(u, writes) == Written(insts, 0)
  {
    VarsOfZero(u, words);
    exposed, writes := Zero(words), Zero(words);
    var i := |insts|;
    while i > 0
      invariant 0 <= i <= |insts|
      invariant IsRow(u, words, exposed) && IsRow(u, words, writes)
      invariant VarsOf(u, exposed) == Exposed(insts, i) && VarsOf(u, writes) == Written(insts, i)
    {
      i := i - 1;
      exposed := WriteAll(u, exposed, insts[i].defs, false);
      writes := WriteAll(u, writes, insts[i].defs, true);
      exposed := WriteAll(u, exposed, insts[i].uses, true);
    }
  }

  /** The writes before the first instruction that may throw, and whether there is one. */
  method EarlyRow(u: seq<Var>, words: nat, insts: seq<Inst>) returns (early: Row, unwinding: bool)
    requires Increasing(u) && |u| <= 64 * words
    requires CoversInsts(u, insts)
    ensures IsRow(u, words, early) && VarsOf(u, early) == Early(insts, 0)
    ensures unwinding == ThrowsFrom(insts, 0)
  {
    hide VarsOf;
    VarsOfZero(u, words);
    early := Zero(words);
    for i := 0 to |insts|
      invariant IsRow(u, words, early)
      invariant VarsOf(u, early) + Early(insts, i) == Early(insts, 0)
      invariant forall k :: 0 <= k < i ==> !insts[k].mayUnwind
    {
      if insts[i].mayUnwind {
        return early, true;
      }
      early := WriteAll(u, early, insts[i].defs, true);
    }
    unwinding := false;
  }

  /** The row of block `b` in a flat buffer of rows `words` long. */
  function RowAt(buffer: seq<Word>, words: nat, b: nat): Row {
    if b * words + words <= |buffer| then buffer[b * words..b * words + words] else []
  }

  lemma RowsApart(words: nat, bound: nat, b: nat, x: nat)
    requires b < bound && x < bound && x != b
    ensures b * words + words <= bound * words
    ensures x * words + words <= b * words || b * words + words <= x * words
  {
    RowFits(words, bound, b);
    if x < b {
      RowFits(words, b, x);
    } else {
      RowFits(words, x, b);
    }
  }

  lemma {:induction false} RowFits(words: nat, bound: nat, b: nat)
    requires b < bound
    ensures b * words + words <= bound * words
    decreases bound
  {
    assert bound * words == (bound - 1) * words + words;
    if b < bound - 1 {
      RowFits(words, bound - 1, b);
    }
  }

  /** Overwrites one row of a flat buffer in place and no other. */
  method CopyRow(buffer: array<Word>, words: nat, bound: nat, b: nat, row: Row)
    requires b < bound && buffer.Length == bound * words && |row| == words
    modifies buffer
    ensures RowAt(buffer[..], words, b) == row
    ensures forall x :: 0 <= x < bound && x != b ==> RowAt(buffer[..], words, x) == old(RowAt(buffer[..], words, x))
  {
    RowFits(words, bound, b);
    var base := b * words;
    for position := 0 to words
      invariant forall k :: 0 <= k < position ==> buffer[base + k] == row[k]
      invariant forall k :: 0 <= k < buffer.Length && !(base <= k < base + position) ==> buffer[k] == old(buffer[k])
    {
      buffer[base + position] := row[position];
    }
    RowsAfterCopy(old(buffer[..]), buffer[..], words, bound, b, row);
  }

  lemma RowsAfterCopy(before: seq<Word>, after: seq<Word>, words: nat, bound: nat, b: nat, row: Row)
    requires b < bound && |before| == |after| == bound * words && |row| == words && b * words + words <= |after|
    requires forall k :: 0 <= k < words ==> after[b * words + k] == row[k]
    requires forall k :: 0 <= k < |after| && !(b * words <= k < b * words + words) ==> after[k] == before[k]
    ensures RowAt(after, words, b) == row
    ensures forall x :: 0 <= x < bound && x != b ==> RowAt(after, words, x) == RowAt(before, words, x)
  {
    forall x | 0 <= x < bound && x != b ensures RowAt(after, words, x) == RowAt(before, words, x) {
      RowsApart(words, bound, b, x);
      RowFits(words, bound, x);
      SameRow(before, after, x * words, x * words + words);
    }
    assert RowAt(after, words, b) == row;
  }

  lemma SameRow(before: seq<Word>, after: seq<Word>, lo: nat, hi: nat)
    requires lo <= hi <= |before| == |after| && forall k :: lo <= k < hi ==> after[k] == before[k]
    ensures after[lo..hi] == before[lo..hi]
  {
  }

  /** The facts a flat buffer stands for. */
  ghost function FactsOf(p: Cfg, u: seq<Var>, words: nat, buffer: seq<Word>): Facts {
    map b | b in p.blocks :: VarsOf(u, RowAt(buffer, words, b))
  }

  ghost predicate RowsOk(p: Cfg, u: seq<Var>, words: nat, buffer: seq<Word>) {
    forall b {:trigger RowAt(buffer, words, b)} :: b in p.blocks ==> IsRow(u, words, RowAt(buffer, words, b))
  }

  predicate HasUnwind(p: Cfg) { exists e :: e in p.edges && IsUnwind(p.edges[e]) }

  /** One more edge flows into one of the two. */
  lemma FlowRowStep(p: Cfg, facts: Facts, b: BlockId, i: nat, unwinding: bool)
    requires p.WellFormed() && b in p.blocks && i < |p.out[b]| && unwinding == (HasUnwind(p) && Throws(p, b))
    ensures var (row, edge) := (p.out[b], p.edges[p.out[b][i]]);
            var departs := unwinding && IsUnwind(edge);
            && FlowAlong(p, facts, row[..i + 1], departs) == FlowAlong(p, facts, row[..i], departs) + LiveIn(facts, edge.target)
            && FlowAlong(p, facts, row[..i + 1], !departs) == FlowAlong(p, facts, row[..i], !departs)
  {
    FlowStep(p, facts, p.out[b], i, false);
    FlowStep(p, facts, p.out[b], i, true);
    assert p.edges[p.out[b][i]].source == b;
  }

  /** What flows into the end of `b` from its successors, and what its unwinds read. */
  method FlowRows(p: Cfg, u: seq<Var>, words: nat, live: array<Word>, b: BlockId, unwinding: bool)
    returns (out: Row, unwind: Row)
    requires p.WellFormed() && b in p.blocks && RowsOk(p, u, words, live[..]) && |u| <= 64 * words
    requires unwinding == (HasUnwind(p) && Throws(p, b))
    ensures IsRow(u, words, out) && IsRow(u, words, unwind)
    ensures VarsOf(u, out) == FlowBack(p, FactsOf(p, u, words, live[..]), b, false)
    ensures VarsOf(u, unwind) == FlowBack(p, FactsOf(p, u, words, live[..]), b, true)
  {
    ghost var facts := FactsOf(p, u, words, live[..]);
    VarsOfZero(u, words);
    out, unwind := Zero(words), Zero(words);
    var row := p.out[b];
    for i := 0 to |row|
      invariant IsRow(u, words, out) && IsRow(u, words, unwind)
      invariant VarsOf(u, out) == FlowAlong(p, facts, row[..i], false)
      invariant VarsOf(u, unwind) == FlowAlong(p, facts, row[..i], true)
    {
      var edge := p.edges[row[i]];
      var from := RowAt(live[..], words, edge.target);
      FlowRowStep(p, facts, b, i, unwinding);
      assert LiveIn(facts, edge.target) == VarsOf(u, from);
      if unwinding && IsUnwind(edge) {
        VarsOfOr(u, unwind, from);
        unwind := Or(unwind, from);
      } else {
        VarsOfOr(u, out, from);
        out := Or(out, from);
      }
    }
    TakeAll(row);
  }

  /** The combined row is the replay of the block. */
  lemma CombinedIsReplay(p: Cfg, seeds: Seeds, u: seq<Var>, words: nat, facts: Facts, b: BlockId, r: BlockRow, out: Row,
                         unwind: Row, next: Row)
    requires p.WellFormed() && b in p.blocks && Increasing(u) && Covers(p, seeds, u, p.bound)
    requires IsRow(u, words, r.exposed) && IsRow(u, words, r.writes) && IsRow(u, words, r.seeded) && IsRow(u, words, r.early)
    requires VarsOf(u, r.exposed) == Exposed(Insts(p, b), 0) && VarsOf(u, r.writes) == Written(Insts(p, b), 0)
    requires VarsOf(u, r.seeded) == Elems(Seed(seeds, b))
    requires HasUnwind(p) ==> VarsOf(u, r.early) == Early(Insts(p, b), 0)
    requires IsRow(u, words, out) && VarsOf(u, out) == FlowBack(p, facts, b, false)
    requires IsRow(u, words, unwind) && VarsOf(u, unwind) == FlowBack(p, facts, b, true)
    requires |next| == words && forall i: nat {:trigger Has(next, i)} :: Has(next, i) <==>
               || ((Has(out, i) || Has(r.seeded, i)) && !Has(r.writes, i))
               || Has(r.exposed, i)
               || (Has(unwind, i) && !Has(r.early, i))
    ensures IsRow(u, words, next)
    ensures VarsOf(u, next) == LiveBefore(p, seeds, AllForced(p), facts, Pos(b, 0))
  {
    hide Before, Exposed, Written, Early, FlowAlong, Covers;
    var o, w := OutOf(p, seeds, facts, b), FlowBack(p, facts, b, true);
    ClosedForm(p, b, 0, o, w);
    assert ThrowsFrom(Insts(p, b), 0) == Throws(p, b);
    forall v | v in w ensures Throws(p, b) && HasUnwind(p) {
      var e := FlowFrom(p, facts, OutRow(p, b), true, v);
    }
    forall v ensures v in VarsOf(u, next) <==> v in LiveBefore(p, seeds, AllForced(p), facts, Pos(b, 0)) {
      if v in u {
        assert Has(next, IndexIn(u, v)) <==> v in (o - Written(Insts(p, b), 0)) + Exposed(Insts(p, b), 0)
                                                  + (w - VarsOf(u, r.early));
      }
    }
  }

  /** Every block's facts are within what one more replay of it finds. */
  ghost predicate Supported(p: Cfg, seeds: Seeds, forced: Forced, facts: Facts) {
    forall b {:trigger SupportedAt(p, seeds, forced, facts, b)} :: b in p.blocks ==> SupportedAt(p, seeds, forced, facts, b)
  }

  lemma {:induction false} FlowMonotone(p: Cfg, facts: Facts, b: BlockId, live: set<Var>, row: seq<EdgeId>, departing: bool)
    requires LiveIn(facts, b) <= live
    ensures FlowAlong(p, facts, row, departing) <= FlowAlong(p, facts[b := live], row, departing)
  {
    if row != [] {
      FlowMonotone(p, facts, b, live, row[..|row| - 1], departing);
    }
  }

  /** Assigning a block what its replay finds only grows supported facts, and they stay supported. */
  lemma AssignSupported(p: Cfg, seeds: Seeds, forced: Forced, facts: Facts, b: BlockId)
    requires b in p.blocks && b in facts && Supported(p, seeds, forced, facts)
    ensures var live := LiveBefore(p, seeds, forced, facts, Pos(b, 0));
            facts[b] + live == live && Supported(p, seeds, forced, facts[b := live])
  {
    var live := LiveBefore(p, seeds, forced, facts, Pos(b, 0));
    assert SupportedAt(p, seeds, forced, facts, b);
    forall x | x in p.blocks ensures SupportedAt(p, seeds, forced, facts[b := live], x) {
      assert SupportedAt(p, seeds, forced, facts, x);
      FlowMonotone(p, facts, b, live, OutRow(p, x), false);
      FlowMonotone(p, facts, b, live, OutRow(p, x), true);
      BeforeMonotone(p, forced, x, 0, OutOf(p, seeds, facts, x), FlowBack(p, facts, x, true),
                     OutOf(p, seeds, facts[b := live], x), FlowBack(p, facts[b := live], x, true));
    }
  }

  /** The recorded end row of every block that is not queued is up to date. */
  ghost predicate FlowingOk(p: Cfg, u: seq<Var>, words: nat, flowing: seq<Word>, facts: Facts, queued: set<BlockId>) {
    forall b {:trigger RowAt(flowing, words, b)} :: b in p.blocks && b !in queued ==>
      IsRow(u, words, RowAt(flowing, words, b)) && VarsOf(u, RowAt(flowing, words, b)) == FlowBack(p, facts, b, false)
  }

  lemma FlowingAfter(p: Cfg, u: seq<Var>, words: nat, before: seq<Word>, after: seq<Word>, facts: Facts, b: BlockId,
                     out: Row, live: set<Var>, queued: set<BlockId>)
    requires p.WellFormed() && b in p.blocks && FlowingOk(p, u, words, before, facts, queued)
    requires RowAt(after, words, b) == out && IsRow(u, words, out) && VarsOf(u, out) == FlowBack(p, facts, b, false)
    requires forall x :: 0 <= x < p.bound && x != b ==> RowAt(after, words, x) == RowAt(before, words, x)
    ensures FlowingOk(p, u, words, after, facts, queued - {b})
    ensures FlowingOk(p, u, words, after, facts[b := live], queued - {b} + Predecessors(p, b))
  {
    forall x | x in p.blocks && x !in Predecessors(p, b)
      ensures FlowBack(p, facts[b := live], x, false) == FlowBack(p, facts, x, false)
    {
      forall e | e in OutRow(p, x) && e in p.edges ensures p.edges[e].target != b {
        assert e in p.inc[p.edges[e].target];
      }
      FlowUnchanged(p, facts, b, live, OutRow(p, x), false);
    }
  }

  lemma BufferFacts(p: Cfg, u: seq<Var>, words: nat, before: seq<Word>, after: seq<Word>, b: BlockId, next: Row)
    requires p.WellFormed() && b in p.blocks && RowsOk(p, u, words, before)
    requires RowAt(after, words, b) == next && IsRow(u, words, next)
    requires forall x :: 0 <= x < p.bound && x != b ==> RowAt(after, words, x) == RowAt(before, words, x)
    ensures RowsOk(p, u, words, after)
    ensures FactsOf(p, u, words, after) == FactsOf(p, u, words, before)[b := VarsOf(u, next)]
  {
  }

  /** What the solve relies on between visits. */
  ghost predicate SolveInv(p: Cfg, seeds: Seeds, facts: Facts, queued: set<BlockId>) {
    && Bounded(p, seeds, facts) && Justified(p, seeds, AllForced(p), facts)
    && ClosedUnless(p, seeds, AllForced(p), facts, queued) && Supported(p, seeds, AllForced(p), facts)
  }

  /** One visit: when the replay of `b` is what the facts already say, `b` is done; otherwise the facts grow. */
  lemma VisitOnce(p: Cfg, seeds: Seeds, facts: Facts, b: BlockId, queued: set<BlockId>)
    requires p.WellFormed() && b in p.blocks && SolveInv(p, seeds, facts, queued)
    ensures var live := LiveBefore(p, seeds, AllForced(p), facts, Pos(b, 0));
            if live == facts[b] then SolveInv(p, seeds, facts, queued - {b})
            else
              && SolveInv(p, seeds, facts[b := live], queued - {b} + Predecessors(p, b))
              && AllPairs(p, seeds) - Pairs(facts[b := live]) < AllPairs(p, seeds) - Pairs(facts)
  {
    AssignSupported(p, seeds, AllForced(p), facts, b);
    VisitProgress(p, seeds, AllForced(p), facts, b, queued);
  }

  /** Rows of a universe that stand for the same set are equal word for word. */
  lemma SameSetSameRow(u: seq<Var>, words: nat, a: Row, b: Row)
    requires Increasing(u) && IsRow(u, words, a) && IsRow(u, words, b) && VarsOf(u, a) == VarsOf(u, b)
    ensures a == b
  {
    forall k, j | 0 <= k < words && 0 <= j < 64 ensures a[k][j] == b[k][j] {
      var i := 64 * k + j;
      assert BitSlot(i) == (k, j);
      assert Has(a, i) == a[k][j] && Has(b, i) == b[k][j];
      if i < |u| {
        assert IndexIn(u, u[i]) == i;
        assert Has(a, i) <==> u[i] in VarsOf(u, a);
      }
    }
    forall k | 0 <= k < words ensures a[k] == b[k] {
    }
  }

  ghost predicate BlockRowOk(p: Cfg, seeds: Seeds, u: seq<Var>, words: nat, b: BlockId, r: BlockRow) {
    && IsRow(u, words, r.exposed) && IsRow(u, words, r.writes) && IsRow(u, words, r.seeded) && IsRow(u, words, r.early)
    && VarsOf(u, r.exposed) == Exposed(Insts(p, b), 0) && VarsOf(u, r.writes) == Written(Insts(p, b), 0)
    && VarsOf(u, r.seeded) == Elems(Seed(seeds, b))
    && r.unwinding == (HasUnwind(p) && Throws(p, b))
    && (HasUnwind(p) ==> VarsOf(u, r.early) == Early(Insts(p, b), 0))
  }

  ghost predicate HasRow(p: Cfg, seeds: Seeds, u: seq<Var>, words: nat, rows: map<BlockId, BlockRow>, b: BlockId) {
    b in rows && BlockRowOk(p, seeds, u, words, b, rows[b])
  }

  ghost predicate AllRowsOk(p: Cfg, seeds: Seeds, u: seq<Var>, words: nat, rows: map<BlockId, BlockRow>, n: nat) {
    forall b {:trigger HasRow(p, seeds, u, words, rows, b)} :: b in p.blocks && b < n ==> HasRow(p, seeds, u, words, rows, b)
  }

  lemma AddRow(p: Cfg, seeds: Seeds, u: seq<Var>, words: nat, rows: map<BlockId, BlockRow>, b: BlockId, r: BlockRow)
    requires AllRowsOk(p, seeds, u, words, rows, b) && BlockRowOk(p, seeds, u, words, b, r)
    ensures AllRowsOk(p, seeds, u, words, rows[b := r], b + 1)
  {
    forall x | x in p.blocks && x < b + 1 ensures HasRow(p, seeds, u, words, rows[b := r], x) {
      assert x != b ==> HasRow(p, seeds, u, words, rows, x);
    }
  }

  method AllRows(p: Cfg, seeds: Seeds, u: seq<Var>, words: nat) returns (rows: map<BlockId, BlockRow>)
    requires p.WellFormed() && Increasing(u) && Covers(p, seeds, u, p.bound) && |u| <= 64 * words
    ensures AllRowsOk(p, seeds, u, words, rows, p.bound)
  {
    var hasUnwind := HasUnwind(p);
    rows := map[];
    for b := 0 to p.bound
      invariant AllRowsOk(p, seeds, u, words, rows, b)
    {
      if b in p.blocks {
        var r := RowsOf(p, seeds, u, words, b, hasUnwind);
        AddRow(p, seeds, u, words, rows, b, r);
        rows := rows[b := r];
      }
    }
  }

  /** Recomputes one block: the row at its end, and the row at its start. */
  method VisitRows(p: Cfg, seeds: Seeds, u: seq<Var>, words: nat, live: array<Word>, b: BlockId, r: BlockRow)
    returns (out: Row, next: Row)
    requires p.WellFormed() && b in p.blocks && RowsOk(p, u, words, live[..]) && |u| <= 64 * words
    requires Increasing(u) && Covers(p, seeds, u, p.bound) && BlockRowOk(p, seeds, u, words, b, r)
    ensures IsRow(u, words, out) && VarsOf(u, out) == FlowBack(p, FactsOf(p, u, words, live[..]), b, false)
    ensures IsRow(u, words, next)
    ensures VarsOf(u, next) == LiveBefore(p, seeds, AllForced(p), FactsOf(p, u, words, live[..]), Pos(b, 0))
  {
    ghost var facts := FactsOf(p, u, words, live[..]);
    var unwind;
    out, unwind := FlowRows(p, u, words, live, b, r.unwinding);
    next := Combine(out, r.seeded, r.writes, r.exposed, unwind, r.early);
    CombinedIsReplay(p, seeds, u, words, facts, b, r, out, unwind, next);
  }

  /** Runs the worklist to its end over flat row buffers. */
  method SolveRows(p: Cfg, seeds: Seeds, u: seq<Var>, words: nat, rows: map<BlockId, BlockRow>,
                   live: array<Word>, flowing: array<Word>)
    requires p.WellFormed() && Increasing(u) && Covers(p, seeds, u, p.bound) && |u| <= 64 * words
    requires AllRowsOk(p, seeds, u, words, rows, p.bound)
    requires live != flowing && live.Length == flowing.Length == p.bound * words
    requires forall k :: 0 <= k < live.Length ==> live[k] == ZeroWord
    modifies live, flowing
    ensures RowsOk(p, u, words, live[..])
    ensures SolveInv(p, seeds, FactsOf(p, u, words, live[..]), {})
    ensures FlowingOk(p, u, words, flowing[..], FactsOf(p, u, words, live[..]), {})
  {
    var worklist := NodeIds(p, p.bound);
    var queued := p.blocks.Keys;
    ghost var facts := FactsOf(p, u, words, live[..]);
    ZeroStart(p, seeds, u, words, live[..]);
    while worklist != []
      invariant RowsOk(p, u, words, live[..]) && facts == FactsOf(p, u, words, live[..])
      invariant SolveInv(p, seeds, facts, queued) && Listed(p, queued, worklist)
      invariant FlowingOk(p, u, words, flowing[..], facts, queued)
      decreases AllPairs(p, seeds) - Pairs(facts), |worklist|
    {
      var b := worklist[|worklist| - 1];
      PopListed(p, queued, worklist);
      assert HasRow(p, seeds, u, words, rows, b);
      VisitOnce(p, seeds, facts, b, queued);
      var out, next := VisitRows(p, seeds, u, words, live, b, rows[b]);
      ghost var flowed, lived := flowing[..], live[..];
      CopyRow(flowing, words, p.bound, b, out);
      FlowingAfter(p, u, words, flowed, flowing[..], facts, b, out, VarsOf(u, next), queued);
      worklist, queued := worklist[..|worklist| - 1], queued - {b};
      if next != RowAt(live[..], words, b) {
        if VarsOf(u, next) == facts[b] {
          SameSetSameRow(u, words, next, RowAt(live[..], words, b));
        }
        CopyRow(live, words, p.bound, b, next);
        BufferFacts(p, u, words, lived, live[..], b, next);
        facts := facts[b := VarsOf(u, next)];
        queued, worklist := EnqueueSources(p, b, queued, worklist);
      }
    }
  }

  lemma ZeroStart(p: Cfg, seeds: Seeds, u: seq<Var>, words: nat, buffer: seq<Word>)
    requires p.WellFormed() && |u| <= 64 * words && |buffer| == p.bound * words
    requires forall k :: 0 <= k < |buffer| ==> buffer[k] == ZeroWord
    ensures RowsOk(p, u, words, buffer) && SolveInv(p, seeds, FactsOf(p, u, words, buffer), p.blocks.Keys)
  {
    hide VarsOf, IsRow;
    VarsOfZero(u, words);
    forall b | b in p.blocks ensures RowAt(buffer, words, b) == Zero(words) {
      RowFits(words, p.bound, b);
    }
  }

  /** Reads the solved rows of one block back as sets, joining its seed into its end. */
  method ReadBlock(p: Cfg, seeds: Seeds, u: seq<Var>, words: nat, ghost facts: Facts, b: BlockId, r: BlockRow, start: Row, end: Row)
    returns (liveIn: set<Var>, liveOut: set<Var>)
    requires b in p.blocks && Increasing(u) && BlockRowOk(p, seeds, u, words, b, r)
    requires IsRow(u, words, start) && IsRow(u, words, end) && VarsOf(u, end) == FlowBack(p, facts, b, false)
    ensures liveIn == VarsOf(u, start) && liveOut == OutOf(p, seeds, facts, b)
  {
    liveIn := SetOf(u, start);
    VarsOfOr(u, end, r.seeded);
    liveOut := SetOf(u, Or(end, r.seeded));
  }

  lemma RowKnown(p: Cfg, seeds: Seeds, u: seq<Var>, words: nat, rows: map<BlockId, BlockRow>, b: BlockId)
    requires AllRowsOk(p, seeds, u, words, rows, p.bound) && b in p.blocks && b < p.bound
    ensures b in rows && BlockRowOk(p, seeds, u, words, b, rows[b])
  {
    assert HasRow(p, seeds, u, words, rows, b);
  }

  /** The solved rows of one block. */
  lemma SolvedRows(p: Cfg, u: seq<Var>, words: nat, live: seq<Word>, flowing: seq<Word>, facts: Facts, b: BlockId)
    requires p.WellFormed() && RowsOk(p, u, words, live) && b in p.blocks
    requires facts == FactsOf(p, u, words, live) && FlowingOk(p, u, words, flowing, facts, {})
    ensures IsRow(u, words, RowAt(live, words, b)) && VarsOf(u, RowAt(live, words, b)) == facts[b]
    ensures IsRow(u, words, RowAt(flowing, words, b)) && VarsOf(u, RowAt(flowing, words, b)) == FlowBack(p, facts, b, false)
  {
    hide VarsOf, FlowBack, IsRow;
  }

  method ReadBack(p: Cfg, seeds: Seeds, u: seq<Var>, words: nat, rows: map<BlockId, BlockRow>, live: seq<Word>,
                  flowing: seq<Word>, ghost facts: Facts)
    returns (liveIn: Facts, liveOut: Facts)
    requires p.WellFormed() && Increasing(u) && RowsOk(p, u, words, live)
    requires AllRowsOk(p, seeds, u, words, rows, p.bound)
    requires facts == FactsOf(p, u, words, live) && FlowingOk(p, u, words, flowing, facts, {})
    ensures liveIn == facts && liveOut.Keys == p.blocks.Keys
    ensures forall b :: b in p.blocks ==> liveOut[b] == OutOf(p, seeds, facts, b)
  {
    hide RowsOk, FlowingOk, OutOf, FlowBack, RowAt, BlockRowOk, AllRowsOk, VarsOf;
    liveIn, liveOut := map[], map[];
    for b := 0 to p.bound
      invariant liveIn.Keys == liveOut.Keys == set x | x in p.blocks && x < b
      invariant forall x :: x in liveIn ==> liveIn[x] == facts[x]
      invariant forall x {:trigger liveOut[x]} :: x in liveOut ==> liveOut[x] == OutOf(p, seeds, facts, x)
    {
      if b in p.blocks {
        RowKnown(p, seeds, u, words, rows, b);
        SolvedRows(p, u, words, live, flowing, facts, b);
        var r := rows[b];
        var start, end := RowAt(live, words, b), RowAt(flowing, words, b);
        var start', end' := ReadBlock(p, seeds, u, words, facts, b, r, start, end);
        liveIn, liveOut := liveIn[b := start'], liveOut[b := end'];
      }
    }
    assert liveIn == facts;
  }

  method ZeroBuffer(size: nat) returns (buffer: array<Word>)
    ensures fresh(buffer) && buffer.Length == size && forall k :: 0 <= k < size ==> buffer[k] == ZeroWord
  {
    buffer := new Word[size](i => ZeroWord);
  }

  lemma InvDone(p: Cfg, seeds: Seeds, facts: Facts)
    requires SolveInv(p, seeds, facts, {})
    ensures Closed(p, seeds, AllForced(p), facts)
  {
  }

  /** The live sets at the start and at the end of every block. */
  method Solve(p: Cfg, seeds: Seeds) returns (liveIn: Facts, liveOut: Facts)
    requires p.WellFormed()
    ensures liveIn.Keys == p.blocks.Keys && liveOut.Keys == p.blocks.Keys
    ensures Justified(p, seeds, AllForced(p), liveIn) && Closed(p, seeds, AllForced(p), liveIn)
    ensures Supported(p, seeds, AllForced(p), liveIn)
    ensures forall b :: b in p.blocks ==> liveOut[b] == OutOf(p, seeds, liveIn, b)
    ensures forall b, v :: b in p.blocks ==> (v in liveIn[b] <==> LiveByPath(p, seeds, Pos(b, 0), v))
    ensures forall b, v :: b in p.blocks ==> (v in liveOut[b] <==> LiveByPath(p, seeds, Pos(b, |p.blocks[b]|), v))
  {
    var u := UniverseOf(p, seeds);
    var words := (|u| + 63) / 64;
    var rows := AllRows(p, seeds, u, words);
    var live := ZeroBuffer(p.bound * words);
    var flowing := ZeroBuffer(p.bound * words);
    SolveRows(p, seeds, u, words, rows, live, flowing);
    liveIn, liveOut := ReadBack(p, seeds, u, words, rows, live[..], flowing[..],
                                 FactsOf(p, u, words, live[..]));
    InvDone(p, seeds, liveIn);
    SolvedExact(p, seeds, liveIn, liveOut);
  }

  /** What is live at either end of a block is what some path from there demands. */
  lemma SolvedExact(p: Cfg, seeds: Seeds, liveIn: Facts, liveOut: Facts)
    requires p.WellFormed() && liveIn.Keys == liveOut.Keys == p.blocks.Keys
    requires Justified(p, seeds, AllForced(p), liveIn) && Closed(p, seeds, AllForced(p), liveIn)
    requires Supported(p, seeds, AllForced(p), liveIn)
    requires forall b :: b in p.blocks ==> liveOut[b] == OutOf(p, seeds, liveIn, b)
    ensures forall b, v :: b in p.blocks ==> (v in liveIn[b] <==> LiveByPath(p, seeds, Pos(b, 0), v))
    ensures forall b, v :: b in p.blocks ==> (v in liveOut[b] <==> LiveByPath(p, seeds, Pos(b, |p.blocks[b]|), v))
  {
    hide LiveByPath, Justified, Closed, Supported, Cfg.WellFormed;
    forall b, v | b in p.blocks
      ensures v in liveIn[b] <==> LiveByPath(p, seeds, Pos(b, 0), v)
      ensures v in liveOut[b] <==> LiveByPath(p, seeds, Pos(b, |p.blocks[b]|), v)
    {
      ReplayGivesLiveIn(p, seeds, liveIn, liveOut, b);
      LivenessExact(p, seeds, liveIn, Pos(b, 0), v);
      LivenessExact(p, seeds, liveIn, Pos(b, |p.blocks[b]|), v);
    }
  }

  /** The live set at each point of `b`: element `i` just before instruction `i`, the last after the block. */
  method LivePoints(p: Cfg, b: BlockId, liveOut: set<Var>, unwind: set<Var>) returns (points: seq<set<Var>>)
    requires b in p.blocks
    ensures |points| == |Insts(p, b)| + 1
    ensures forall i :: 0 <= i <= |Insts(p, b)| ==> points[i] == Before(p, AllForced(p), b, i, liveOut, unwind)
  {
    var insts := Insts(p, b);
    var live := liveOut;
    points := [live];
    var i := |insts|;
    while i > 0
      invariant 0 <= i <= |insts| && |points| == |insts| - i + 1
      invariant live == Before(p, AllForced(p), b, i, liveOut, unwind)
      invariant forall k :: i <= k <= |insts| ==> points[k - i] == Before(p, AllForced(p), b, k, liveOut, unwind)
    {
      i := i - 1;
      assert Pos(b, i) in AllForced(p);
      live := StepBackward(live, insts[i], unwind);
      points := [live] + points;
    }
  }

  /** What an unwind out of `b` can read. */
  method LiveOnUnwind(p: Cfg, liveIn: Facts, b: BlockId) returns (live: set<Var>)
    requires p.WellFormed() && b in p.blocks && liveIn.Keys == p.blocks.Keys
    ensures live == FlowBack(p, liveIn, b, true)
  {
    live := {};
    var row := p.out[b];
    for i := 0 to |row|
      invariant live == FlowAlong(p, liveIn, row[..i], true)
    {
      FlowStep(p, liveIn, row, i, true);
      if Departs(p, p.edges[row[i]]) {
        live := live + liveIn[p.edges[row[i]].target];
      }
    }
    TakeAll(row);
  }

  /** Replaying a block from its live-out set with its unwind set gives back its live-in set. */
  lemma ReplayGivesLiveIn(p: Cfg, seeds: Seeds, liveIn: Facts, liveOut: Facts, b: BlockId)
    requires p.WellFormed() && b in p.blocks && liveIn.Keys == liveOut.Keys == p.blocks.Keys
    requires Closed(p, seeds, AllForced(p), liveIn) && Supported(p, seeds, AllForced(p), liveIn)
    requires liveOut[b] == OutOf(p, seeds, liveIn, b)
    ensures Before(p, AllForced(p), b, 0, liveOut[b], FlowBack(p, liveIn, b, true)) == liveIn[b]
  {
    assert ClosedAt(p, seeds, AllForced(p), liveIn, b) && SupportedAt(p, seeds, AllForced(p), liveIn, b);
  }
}
