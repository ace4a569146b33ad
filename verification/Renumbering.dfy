/** When constant propagation ends however the blocks are numbered: exactly when every cycle goes through the entry. */
module Renumbering {
  import opened Wrappers
  import opened Sequences
  import opened Program
  import opened Trails
  import opened Iteration
  import opened EdgeFixpoint
  import opened Constants
  import opened ConstantPropagation
  import opened EarlyBlocks
  import opened ConstantTermination
  import opened ConstantTiming
  import opened ExactConstants
  import opened LateRings

  /** Every cycle of reachable blocks goes through the entry. */
  ghost predicate CyclesEnter(p: Cfg) {
    forall b {:trigger LeadsOn(p, b, b)} :: ReachableBlock(p, b) ==> !LeadsOn(p, b, b)
  }

  ghost predicate Distinct(name: map<BlockId, BlockId>) {
    forall a, b :: a in name && b in name && name[a] == name[b] ==> a == b
  }

  /** A program on the graph of `p`, with each block `b` called `name[b]`. */
  ghost predicate Renames(p: Cfg, q: Cfg, name: map<BlockId, BlockId>) {
    && p.WellFormed() && q.WellFormed() && name.Keys == p.blocks.Keys && q.entry == name[p.entry]
    && Distinct(name) && (forall x :: x in q.blocks <==> exists b :: b in name && name[b] == x)
    && q.edges.Keys == p.edges.Keys
    && forall e {:trigger q.edges[e]} :: e in p.edges ==> q.edges[e] == Edge(name[p.edges[e].source], name[p.edges[e].target], p.edges[e].kind)
  }

  /** Some number of visits solves the program. */
  ghost predicate IsSolved<C(!new)>(q: Cfg, dom: Domain<C>) {
    exists enough {:trigger Ends(EdgeSystem(q, ConstProblem(q, dom)), ReachableBlocks(q), enough)} ::
      Ends(EdgeSystem(q, ConstProblem(q, dom)), ReachableBlocks(q), enough)
  }

  /** A path of the renamed graph is one of the graph itself. */
  lemma {:induction false} TrailBack(p: Cfg, q: Cfg, name: map<BlockId, BlockId>, t: Trail, from: BlockId) returns (u: Trail)
    requires Renames(p, q, name) && from in name && t.First() == name[from] && IsTrail(q, t)
    ensures IsTrail(p, u) && u.First() == from && u.at in name && name[u.at] == t.at && (t.To? <==> u.To?)
    ensures IsTrail(Inner(q), t) ==> IsTrail(Inner(p), u)
  {
    hide Renames, Cfg.WellFormed;
    RenamedEntry(p, q, name);
    match t
    case From(_) => u := From(from);
    case To(prev, at) =>
      var v := TrailBack(p, q, name, prev, from);
      var inner := IsTrail(Inner(q), t);
      var e :| e in q.edges && q.edges[e].source == prev.at && q.edges[e].target == at && (inner ==> e in Inner(q).edges);
      EdgeNamed(p, q, name, e);
      NameOnce(p, q, name, p.edges[e].source, v.at);
      u := To(v, p.edges[e].target);
      assert Succ(p, v.at, u.at);
      if inner {
        assert e in Inner(p).edges;
        assert Succ(Inner(p), v.at, u.at);
      }
  }

  lemma {:induction false} InnerTrail(p: Cfg, t: Trail)
    requires IsTrail(Inner(p), t)
    ensures IsTrail(p, t)
  {
    if t.To? {
      InnerTrail(p, t.prev);
      var e :| e in Inner(p).edges && Inner(p).edges[e].source == t.prev.at && Inner(p).edges[e].target == t.at;
      assert e in p.edges;
    }
  }

  lemma RenamedEnters(p: Cfg, q: Cfg, name: map<BlockId, BlockId>)
    requires Renames(p, q, name) && CyclesEnter(p)
    ensures CyclesEnter(q)
  {
    hide Renames, ReachableBlock, LeadsOn;
    forall b | ReachableBlock(q, b) ensures !LeadsOn(q, b, b) {
      if LeadsOn(q, b, b) {
        var a := CycleBack(p, q, name, b);
      }
    }
  }

  lemma CycleBack(p: Cfg, q: Cfg, name: map<BlockId, BlockId>, b: BlockId) returns (a: BlockId)
    requires Renames(p, q, name) && ReachableBlock(q, b) && LeadsOn(q, b, b)
    ensures ReachableBlock(p, a) && LeadsOn(p, a, a)
  {
    var r :| IsTrailTo(q, r, q.entry, b);
    var t: Trail :| IsTrailTo(Inner(q), t, b, b) && t.To?;
    InnerTrail(q, t);
    RenamedEntry(p, q, name);
    hide Inner, Cfg.WellFormed;
    var v := TrailBack(p, q, name, r, p.entry);
    a := v.at;
    var u := TrailBack(p, q, name, t, a);
    NameOnce(p, q, name, u.at, a);
    assert IsTrailTo(p, v, p.entry, a) && IsTrailTo(Inner(p), u, a, a);
  }

  lemma RenamedEntry(p: Cfg, q: Cfg, name: map<BlockId, BlockId>)
    requires Renames(p, q, name)
    ensures p.entry in name && q.entry == name[p.entry]
  {
  }

  lemma NameOnce(p: Cfg, q: Cfg, name: map<BlockId, BlockId>, a: BlockId, b: BlockId)
    requires Renames(p, q, name) && a in name && b in name && name[a] == name[b]
    ensures a == b
  {
  }

  lemma EntersAcyclic(q: Cfg)
    requires CyclesEnter(q)
    ensures EarlyAcyclic(q)
  {
    forall b | Affected(q, b) ensures !LeadsOn(q, b, b) {
      var t: Trail :| IsTrail(Inner(q), t) && Early(q, t.First()) && t.at == b;
      var r :| IsTrailTo(q, r, q.entry, t.First());
      InnerTrail(q, t);
      var v := TrailJoin(q, r, t);
      assert ReachableBlock(q, b);
    }
  }

  /** When every cycle goes through the entry, every program on the graph is solved, however its blocks are numbered. */
  lemma EntersEnds<C(!new)>(p: Cfg, q: Cfg, name: map<BlockId, BlockId>, dom: Domain<C>, laws: Laws<C>)
    requires Renames(p, q, name) && CyclesEnter(p) && LawfulDomain(dom, laws)
    ensures IsSolved(q, dom)
  {
    hide CyclesEnter, EarlyAcyclic, LawfulDomain, Ends, Cfg.WellFormed;
    RenamedEnters(p, q, name);
    EntersAcyclic(q);
    var enough := EarlyAcyclicEnds(q, dom, laws);
  }

  /** A cycle off the entry. */
  ghost predicate IsLoop(p: Cfg, ring: seq<BlockId>) {
    ring != [] && forall i :: 0 <= i < |ring| ==> ring[i] != p.entry && ReachableBlock(p, ring[i]) && Succ(p, ring[Prev(|ring|, i)], ring[i])
  }

  /** No edge between its blocks but those round it. */
  ghost predicate Tight(p: Cfg, ring: seq<BlockId>) {
    forall i, j {:trigger Succ(p, ring[i], ring[j])} :: 0 <= i < |ring| && 0 <= j < |ring| && Succ(p, ring[i], ring[j]) ==> i == Prev(|ring|, j)
  }

  ghost predicate IsWalk(p: Cfg, from: BlockId, walk: seq<BlockId>) {
    forall i :: 0 <= i < |walk| ==> walk[i] != p.entry && ReachableBlock(p, walk[i]) && Succ(p, Behind(from, walk, i), walk[i])
  }

  function Behind(from: BlockId, walk: seq<BlockId>, i: nat): BlockId
    requires i <= |walk|
  {
    if i == 0 then from else walk[i - 1]
  }

  lemma {:induction false} WalkOf(p: Cfg, t: Trail) returns (walk: seq<BlockId>)
    requires IsTrail(Inner(p), t) && ReachableBlock(p, t.First())
    ensures IsWalk(p, t.First(), walk) && (t.To? <==> walk != []) && t.at == (if walk == [] then t.First() else walk[|walk| - 1])
    ensures ReachableBlock(p, t.at)
  {
    match t
    case From(_) => walk := [];
    case To(prev, at) =>
      var before := WalkOf(p, prev);
      var e :| e in Inner(p).edges && Inner(p).edges[e].source == prev.at && Inner(p).edges[e].target == at;
      EdgeLeads(p, e);
      walk := before + [at];
      forall i | 0 <= i < |walk|
        ensures walk[i] != p.entry && ReachableBlock(p, walk[i]) && Succ(p, Behind(t.First(), walk, i), walk[i])
      {
        assert Behind(t.First(), walk, i) == Behind(t.First(), before, i);
        if i < |before| {
          assert walk[i] == before[i];
        } else {
          assert e in p.edges && p.edges[e].target == walk[i] && p.edges[e].source == Behind(t.First(), walk, i);
        }
      }
  }

  lemma HasLoop(p: Cfg, b: BlockId) returns (ring: seq<BlockId>)
    requires ReachableBlock(p, b) && LeadsOn(p, b, b)
    ensures IsLoop(p, ring)
  {
    var t: Trail :| IsTrailTo(Inner(p), t, b, b) && t.To?;
    ring := WalkOf(p, t);
    forall i | 0 <= i < |ring| ensures ring[i] != p.entry && ReachableBlock(p, ring[i]) && Succ(p, ring[Prev(|ring|, i)], ring[i]) {
      assert Behind(b, ring, i) == ring[Prev(|ring|, i)];
    }
  }

  /** The ring started elsewhere. */
  function Turn(ring: seq<BlockId>, r: nat): seq<BlockId>
    requires r <= |ring|
  {
    ring[r..] + ring[..r]
  }

  lemma TurnAt(ring: seq<BlockId>, r: nat, i: nat)
    requires r < |ring| && i < |ring|
    ensures |Turn(ring, r)| == |ring| && Turn(ring, r)[i] == ring[if i + r < |ring| then i + r else i + r - |ring|]
  {
  }

  lemma TurnLoop(p: Cfg, ring: seq<BlockId>, r: nat)
    requires IsLoop(p, ring) && r < |ring|
    ensures IsLoop(p, Turn(ring, r))
  {
    var turned, n := Turn(ring, r), |ring|;
    forall i | 0 <= i < n ensures turned[i] != p.entry && ReachableBlock(p, turned[i]) && Succ(p, turned[Prev(n, i)], turned[i]) {
      TurnAt(ring, r, i);
      TurnAt(ring, r, Prev(n, i));
      var j := if i + r < n then i + r else i + r - n;
      assert turned[i] == ring[j] && turned[Prev(n, i)] == ring[Prev(n, j)];
    }
  }

  /** An edge across the ring cuts it short. */
  lemma CutShort(p: Cfg, ring: seq<BlockId>, i: nat, j: nat) returns (less: seq<BlockId>)
    requires IsLoop(p, ring) && i < |ring| && j < |ring| && Succ(p, ring[i], ring[j]) && i != Prev(|ring|, j)
    ensures IsLoop(p, less) && |less| < |ring|
  {
    var n := |ring|;
    var r := if i + 1 < n then i + 1 else 0;
    TurnLoop(p, ring, r);
    var turned := Turn(ring, r);
    TurnAt(ring, r, n - 1);
    var k := if j >= r then j - r else j - r + n;
    TurnAt(ring, r, k);
    less := turned[k..];
    forall x | 0 <= x < |less| ensures less[x] != p.entry && ReachableBlock(p, less[x]) && Succ(p, less[Prev(|less|, x)], less[x]) {
      assert turned[x + k] != p.entry && Succ(p, turned[Prev(n, x + k)], turned[x + k]);
    }
  }

  lemma {:induction false} HasTight(p: Cfg, ring: seq<BlockId>) returns (tight: seq<BlockId>)
    requires IsLoop(p, ring)
    ensures IsLoop(p, tight) && Tight(p, tight)
    decreases |ring|
  {
    if Tight(p, ring) {
      tight := ring;
    } else {
      var i, j :| 0 <= i < |ring| && 0 <= j < |ring| && Succ(p, ring[i], ring[j]) && i != Prev(|ring|, j);
      var less := CutShort(p, ring, i, j);
      tight := HasTight(p, less);
    }
  }

  lemma TurnTight(p: Cfg, ring: seq<BlockId>, r: nat)
    requires Tight(p, ring) && r < |ring|
    ensures Tight(p, Turn(ring, r))
  {
    var turned, n := Turn(ring, r), |ring|;
    forall i, j | 0 <= i < n && 0 <= j < n && Succ(p, turned[i], turned[j]) ensures i == Prev(n, j) {
      TurnAt(ring, r, i);
      TurnAt(ring, r, j);
      var a := if i + r < n then i + r else i + r - n;
      var b := if j + r < n then j + r else j + r - n;
      assert Succ(p, ring[a], ring[b]);
    }
  }

  lemma TightUnique(p: Cfg, ring: seq<BlockId>)
    requires IsLoop(p, ring) && Tight(p, ring)
    ensures Unique(ring)
  {
    forall i, j | 0 <= i < j < |ring| ensures ring[i] != ring[j] {
      assert Succ(p, ring[Prev(|ring|, i)], ring[i]);
    }
  }

  /** A path into the ring enters it somewhere. */
  lemma {:induction false} EntersAt(p: Cfg, ring: seq<BlockId>, t: Trail) returns (g: BlockId, j: nat)
    requires IsTrail(p, t) && t.First() == p.entry && p.entry !in ring && t.at in ring
    ensures g !in ring && ReachableBlock(p, g) && j < |ring| && Succ(p, g, ring[j])
  {
    if t.prev.at in ring {
      g, j := EntersAt(p, ring, t.prev);
    } else {
      g := t.prev.at;
      j :| 0 <= j < |ring| && ring[j] == t.at;
      assert IsTrailTo(p, t.prev, p.entry, g);
    }
  }

  function Position(ring: seq<BlockId>, b: BlockId): (i: nat)
    requires b in ring
    ensures i < |ring| && ring[i] == b
  {
    if ring[0] == b then 0 else 1 + Position(ring[1..], b)
  }

  /** The ring comes first, then `g`, then everything else. */
  function NameOf(ring: seq<BlockId>, g: BlockId, b: BlockId): BlockId {
    if b in ring then Position(ring, b) else if b == g then |ring| else |ring| + 1 + b
  }

  function Names(p: Cfg, ring: seq<BlockId>, g: BlockId): map<BlockId, BlockId> {
    map b | b in p.blocks :: NameOf(ring, g, b)
  }

  lemma NamesDiffer(p: Cfg, ring: seq<BlockId>, g: BlockId)
    ensures Distinct(Names(p, ring, g))
  {
  }

  ghost function Called(name: map<BlockId, BlockId>, x: BlockId): (b: BlockId)
    requires exists b :: b in name && name[b] == x
    ensures b in name && name[b] == x
  {
    var b :| b in name && name[b] == x;
    b
  }

  /** The graph under its new names; the blocks are empty. */
  ghost function Renamed(p: Cfg, name: map<BlockId, BlockId>, bound: nat): Cfg
    requires p.WellFormed() && name.Keys == p.blocks.Keys
  {
    var names := set b | b in name :: name[b];
    Cfg(name[p.entry], bound, map x | x in names :: [],
        map e | e in p.edges :: Edge(name[p.edges[e].source], name[p.edges[e].target], p.edges[e].kind),
        map x | x in names :: p.out[Called(name, x)], map x | x in names :: p.inc[Called(name, x)])
  }

  lemma CalledIs(name: map<BlockId, BlockId>, b: BlockId)
    requires Distinct(name) && b in name
    ensures Called(name, name[b]) == b
  {
  }

  lemma RenamedOk(p: Cfg, name: map<BlockId, BlockId>, bound: nat)
    requires p.WellFormed() && name.Keys == p.blocks.Keys && Distinct(name) && forall b :: b in name ==> name[b] < bound
    ensures Renames(p, Renamed(p, name, bound), name)
  {
    hide Cfg.WellFormed, Called, Distinct;
    RenamedWell(p, name, bound);
  }

  lemma RenamedWell(p: Cfg, name: map<BlockId, BlockId>, bound: nat)
    requires p.WellFormed() && name.Keys == p.blocks.Keys && Distinct(name) && forall b :: b in name ==> name[b] < bound
    ensures Renamed(p, name, bound).WellFormed() && p.entry in name
  {
    hide Called, Distinct;
    RenamedEdges(p, name, bound);
    RenamedRows(p, name, bound);
    assert p.entry in name;
  }

  lemma RenamedEdges(p: Cfg, name: map<BlockId, BlockId>, bound: nat)
    requires p.WellFormed() && name.Keys == p.blocks.Keys && Distinct(name)
    ensures var q := Renamed(p, name, bound);
            forall e :: e in q.edges ==>
              && q.edges[e].source in q.blocks && q.edges[e].target in q.blocks
              && e in q.out[q.edges[e].source] && e in q.inc[q.edges[e].target]
  {
    hide Called, Distinct;
    var q := Renamed(p, name, bound);
    forall e | e in q.edges
      ensures q.edges[e].source in q.blocks && q.edges[e].target in q.blocks
      ensures e in q.out[q.edges[e].source] && e in q.inc[q.edges[e].target]
    {
      CalledIs(name, p.edges[e].source);
      CalledIs(name, p.edges[e].target);
    }
  }

  lemma RenamedRows(p: Cfg, name: map<BlockId, BlockId>, bound: nat)
    requires p.WellFormed() && name.Keys == p.blocks.Keys && Distinct(name)
    ensures var q := Renamed(p, name, bound);
            && (forall x, i :: x in q.out && 0 <= i < |q.out[x]| ==> q.out[x][i] in q.edges && q.edges[q.out[x][i]].source == x)
            && forall x, i :: x in q.inc && 0 <= i < |q.inc[x]| ==> q.inc[x][i] in q.edges && q.edges[q.inc[x][i]].target == x
  {
    hide Called, Distinct;
    var q := Renamed(p, name, bound);
    forall x, i | x in q.out && 0 <= i < |q.out[x]| ensures q.out[x][i] in q.edges && q.edges[q.out[x][i]].source == x {
      assert p.out[Called(name, x)][i] in p.edges;
    }
    forall x, i | x in q.inc && 0 <= i < |q.inc[x]| ensures q.inc[x][i] in q.edges && q.edges[q.inc[x][i]].target == x {
      assert p.inc[Called(name, x)][i] in p.edges;
    }
  }

  /** An edge under its new names. */
  lemma EdgeNamed(p: Cfg, q: Cfg, name: map<BlockId, BlockId>, e: EdgeId)
    requires Renames(p, q, name) && (e in p.edges || e in q.edges)
    ensures e in p.edges && e in q.edges && p.edges[e].source in name && p.edges[e].target in name
    ensures q.edges[e].source == name[p.edges[e].source] && q.edges[e].target == name[p.edges[e].target]
  {
  }

  lemma SuccForth(p: Cfg, q: Cfg, name: map<BlockId, BlockId>, a: BlockId, b: BlockId)
    requires Renames(p, q, name) && Succ(p, a, b)
    ensures a in name && b in name && Succ(q, name[a], name[b])
  {
    hide Renames, Cfg.WellFormed;
    var e :| e in p.edges && p.edges[e].source == a && p.edges[e].target == b;
    EdgeNamed(p, q, name, e);
  }

  lemma {:induction false} TrailForth(p: Cfg, q: Cfg, name: map<BlockId, BlockId>, t: Trail) returns (u: Trail)
    requires Renames(p, q, name) && IsTrail(p, t) && t.First() == p.entry
    ensures t.at in name && IsTrailTo(q, u, q.entry, name[t.at])
  {
    hide Renames, Succ, Cfg.WellFormed;
    RenamedEntry(p, q, name);
    match t
    case From(at) => u := From(name[at]);
    case To(prev, at) =>
      u := TrailForth(p, q, name, prev);
      SuccForth(p, q, name, prev.at, at);
      u := To(u, name[at]);
  }

  lemma ReachForth(p: Cfg, q: Cfg, name: map<BlockId, BlockId>, b: BlockId)
    requires Renames(p, q, name) && ReachableBlock(p, b)
    ensures b in name && ReachableBlock(q, name[b])
  {
    hide Renames;
    var t :| IsTrailTo(p, t, p.entry, b);
    var u := TrailForth(p, q, name, t);
  }

  function Counting(n: nat): seq<BlockId> { seq(n, i => i) }

  lemma RingName(p: Cfg, ring: seq<BlockId>, g: BlockId, i: nat)
    requires Unique(ring) && i < |ring|
    ensures NameOf(ring, g, ring[i]) == i
  {
    assert Position(ring, ring[i]) == i;
  }

  /** Under these names the ring is a late one. */
  lemma RenamedRing(p: Cfg, q: Cfg, ring: seq<BlockId>, g: BlockId)
    requires Renames(p, q, Names(p, ring, g)) && IsLoop(p, ring) && Tight(p, ring) && Unique(ring)
    requires g !in ring && ReachableBlock(p, g) && Succ(p, g, ring[0])
    ensures LateRing(q, Counting(|ring|), |ring|)
  {
    var name, n := Names(p, ring, g), |ring|;
    hide Renames, OnRing, Tight, Succ, ReachableBlock, Cfg.WellFormed, Position;
    BothWell(p, q, name);
    LoopAt(p, ring, 0);
    ReachForth(p, q, name, g);
    SuccForth(p, q, name, g, ring[0]);
    RingName(p, ring, g, 0);
    assert name[g] == n && name[ring[0]] == 0;
    forall i | 0 <= i < n ensures OnRing(q, Counting(n), n, i) {
      RenamedOnRing(p, q, ring, g, i);
    }
  }

  lemma BothWell(p: Cfg, q: Cfg, name: map<BlockId, BlockId>)
    requires Renames(p, q, name)
    ensures p.WellFormed() && q.WellFormed()
  {
  }

  lemma LoopAt(p: Cfg, ring: seq<BlockId>, i: nat)
    requires IsLoop(p, ring) && i < |ring|
    ensures ring[i] != p.entry && ReachableBlock(p, ring[i]) && Succ(p, ring[Prev(|ring|, i)], ring[i])
  {
  }

  lemma RenamedOnRing(p: Cfg, q: Cfg, ring: seq<BlockId>, g: BlockId, i: nat)
    requires Renames(p, q, Names(p, ring, g)) && IsLoop(p, ring) && Tight(p, ring) && Unique(ring) && i < |ring|
    ensures OnRing(q, Counting(|ring|), |ring|, i)
  {
    hide Renames, Tight, Succ, ReachableBlock, IsLoop, Position, NameOf;
    var name, n := Names(p, ring, g), |ring|;
    RenamedEntry(p, q, name);
    LoopAt(p, ring, i);
    ReachForth(p, q, name, ring[i]);
    SuccForth(p, q, name, ring[Prev(n, i)], ring[i]);
    RingName(p, ring, g, i);
    RingName(p, ring, g, Prev(n, i));
    if i == q.entry {
      NameOnce(p, q, name, p.entry, ring[i]);
    }
    assert Counting(n)[i] == i && Counting(n)[Prev(n, i)] == Prev(n, i);
    forall e | e in q.edges && q.edges[e].target == i
      ensures q.edges[e].source == Prev(n, i) || (q.edges[e].source !in Counting(n) && q.edges[e].source >= n)
    {
      IntoRenamed(p, q, ring, g, i, e);
    }
  }

  lemma IntoRenamed(p: Cfg, q: Cfg, ring: seq<BlockId>, g: BlockId, i: nat, e: EdgeId)
    requires Renames(p, q, Names(p, ring, g)) && Tight(p, ring) && Unique(ring) && i < |ring| && ring[i] in Names(p, ring, g)
    requires e in q.edges && q.edges[e].target == i
    ensures q.edges[e].source == Prev(|ring|, i) || (q.edges[e].source !in Counting(|ring|) && q.edges[e].source >= |ring|)
  {
    hide Renames, Position;
    var name := Names(p, ring, g);
    EdgeNamed(p, q, name, e);
    RingName(p, ring, g, i);
    NameOnce(p, q, name, p.edges[e].target, ring[i]);
    var a := p.edges[e].source;
    assert Succ(p, a, ring[i]);
    if a in ring {
      var j := Position(ring, a);
      RingName(p, ring, g, j);
      assert Succ(p, ring[j], ring[i]);
    } else {
      assert name[a] >= |ring|;
    }
  }

  lemma ShapeRenames(p: Cfg, r: Cfg, q: Cfg, name: map<BlockId, BlockId>)
    requires Renames(p, r, name) && SameShape(r, q)
    ensures Renames(p, q, name)
  {
    ShapeReach(r, q);
  }

  /** A cycle off the entry gives a numbering, and a program, that is never solved. */
  lemma CycleNeverEnds(p: Cfg, b: BlockId) returns (q: Cfg, name: map<BlockId, BlockId>)
    requires p.WellFormed() && ReachableBlock(p, b) && LeadsOn(p, b, b)
    ensures Renames(p, q, name) && !IsSolved(q, Exact())
    ensures q.Contracts() && LawfulDomain(Exact(), ExactLaws()) && FolderSound(q, Exact(), Meant(), MachineSemantics())
  {
    hide LawfulDomain, FolderSound, LeadsOn, Cfg.Contracts, Renames, IsSolved, IsLoop, Tight, ReachableBlock, Succ, Cfg.WellFormed;
    var loop := HasLoop(p, b);
    var tight := HasTight(p, loop);
    var g, ring := Entered(p, tight);
    q, name := RingNeverEnds(p, ring, g);
  }

  lemma RingNeverEnds(p: Cfg, ring: seq<BlockId>, g: BlockId) returns (q: Cfg, name: map<BlockId, BlockId>)
    requires p.WellFormed() && IsLoop(p, ring) && Tight(p, ring) && Unique(ring) && g !in ring && ReachableBlock(p, g) && Succ(p, g, ring[0])
    ensures Renames(p, q, name) && !IsSolved(q, Exact())
    ensures q.Contracts() && LawfulDomain(Exact(), ExactLaws()) && FolderSound(q, Exact(), Meant(), MachineSemantics())
  {
    hide LawfulDomain, FolderSound, Ends, LateRing, Relay, Cfg.Contracts, Renames, Renamed, IsLoop, Tight, ReachableBlock, Succ, SameShape,
         ReachableBlocks, Distinct;
    name := Names(p, ring, g);
    var bound := |ring| + 1 + p.bound + g;
    NamesDiffer(p, ring, g);
    NamesBelow(p, ring, g);
    var r := Renamed(p, name, bound);
    RenamedOk(p, name, bound);
    RenamedRing(p, r, ring, g);
    q := Relay(r, Counting(|ring|));
    NeverEnds(r, Counting(|ring|), |ring|, 0);
    ShapeRenames(p, r, q, name);
    forall enough: nat ensures !Ends(EdgeSystem(q, ConstProblem(q, Exact())), ReachableBlocks(q), enough) {
      NeverEnds(r, Counting(|ring|), |ring|, enough);
    }
  }

  lemma NamesBelow(p: Cfg, ring: seq<BlockId>, g: BlockId)
    requires p.WellFormed()
    ensures forall b :: b in Names(p, ring, g) ==> Names(p, ring, g)[b] < |ring| + 1 + p.bound + g
  {
  }

  /** The ring, started where a block off it leads in. */
  lemma Entered(p: Cfg, tight: seq<BlockId>) returns (g: BlockId, ring: seq<BlockId>)
    requires IsLoop(p, tight) && Tight(p, tight)
    ensures IsLoop(p, ring) && Tight(p, ring) && Unique(ring) && g !in ring && ReachableBlock(p, g) && Succ(p, g, ring[0])
  {
    assert tight[0] != p.entry && ReachableBlock(p, tight[0]);
    var t :| IsTrailTo(p, t, p.entry, tight[0]);
    var j;
    g, j := EntersAt(p, tight, t);
    ring := Turn(tight, j);
    TurnLoop(p, tight, j);
    TurnTight(p, tight, j);
    TightUnique(p, ring);
    TurnAt(tight, j, 0);
  }

  /** Every program on the graph is solved, however its blocks are numbered, exactly when every cycle goes through the
      entry. */
  lemma NumberingExact(p: Cfg)
    requires p.WellFormed()
    ensures CyclesEnter(p) <==> forall q, name {:trigger Renames(p, q, name)} :: Renames(p, q, name) ==> IsSolved(q, Exact())
  {
    hide LawfulDomain, LeadsOn, ReachableBlock, IsSolved, Renames, FolderSound, Cfg.Contracts;
    if CyclesEnter(p) {
      ExactLawful();
      forall q, name | Renames(p, q, name) ensures IsSolved(q, Exact()) {
        EntersEnds(p, q, name, Exact(), ExactLaws());
      }
    } else {
      var b :| ReachableBlock(p, b) && LeadsOn(p, b, b);
      var q, name := CycleNeverEnds(p, b);
    }
  }
}
