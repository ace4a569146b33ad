/** Graph shapes, as a solver that visits the lowest queued block first sees them: which blocks it visits before anything
    has reached them, and what those lead to. */
module EarlyBlocks {
  import opened Wrappers
  import opened Sequences
  import opened Program
  import opened Trails

  /** Edge `e` enters `b` from a reachable block with a lower identity. */
  ghost predicate FromBelow(p: Cfg, b: BlockId, e: EdgeId) {
    e in p.edges && p.edges[e].target == b && p.edges[e].source < b && ReachableBlock(p, p.edges[e].source)
  }

  /** Reachable, but never along an edge from below. */
  ghost predicate Early(p: Cfg, b: BlockId) {
    ReachableBlock(p, b) && b != p.entry && forall e :: !FromBelow(p, b, e)
  }

  /** Every reachable block but the entry has a reachable predecessor with a lower identity. */
  ghost predicate Ordered(p: Cfg) {
    forall b {:trigger Early(p, b)} :: !Early(p, b)
  }

  /** The graph without the edges back into the entry, where every variable is unknown whatever they carry. */
  function Inner(p: Cfg): Cfg {
    p.(edges := map e | e in p.edges && p.edges[e].target != p.entry :: p.edges[e])
  }

  /** Some early block leads to `b` without going through the entry. */
  ghost predicate Affected(p: Cfg, b: BlockId) {
    exists t: Trail :: IsTrail(Inner(p), t) && Early(p, t.First()) && t.at == b
  }

  /** A path of at least one edge, none of them into the entry. */
  ghost predicate LeadsOn(p: Cfg, a: BlockId, b: BlockId) {
    exists t: Trail :: IsTrailTo(Inner(p), t, a, b) && t.To?
  }

  /** No early block leads to a cycle, the entry aside. */
  ghost predicate EarlyAcyclic(p: Cfg) {
    forall b {:trigger Affected(p, b)} :: Affected(p, b) ==> !LeadsOn(p, b, b)
  }

  lemma {:induction false} TrailJoin(p: Cfg, t: Trail, u: Trail) returns (v: Trail)
    requires IsTrail(p, t) && IsTrail(p, u) && t.at == u.First()
    ensures IsTrailTo(p, v, t.First(), u.at) && (t.To? || u.To? ==> v.To?)
  {
    match u
    case From(_) => v := t;
    case To(prev, at) =>
      v := TrailJoin(p, t, prev);
      v := To(v, at);
  }

  lemma LeadsThrough(p: Cfg, a: BlockId, b: BlockId, c: BlockId)
    requires LeadsOn(p, a, b) && LeadsOn(p, b, c)
    ensures LeadsOn(p, a, c)
  {
    var t: Trail :| IsTrailTo(Inner(p), t, a, b) && t.To?;
    var u: Trail :| IsTrailTo(Inner(p), u, b, c) && u.To?;
    var v := TrailJoin(Inner(p), t, u);
  }

  lemma EdgeLeads(p: Cfg, e: EdgeId)
    requires e in p.edges
    ensures p.edges[e].target != p.entry ==> LeadsOn(p, p.edges[e].source, p.edges[e].target)
    ensures p.edges[e].target != p.entry && Affected(p, p.edges[e].source) ==> Affected(p, p.edges[e].target)
    ensures ReachableBlock(p, p.edges[e].source) ==> ReachableBlock(p, p.edges[e].target)
  {
    var a, b := p.edges[e].source, p.edges[e].target;
    assert Succ(p, a, b);
    if b != p.entry {
      assert e in Inner(p).edges && Succ(Inner(p), a, b);
      assert IsTrailTo(Inner(p), To(From(a), b), a, b) by { assert IsTrail(Inner(p), From(a)); }
      if Affected(p, a) {
        var t: Trail :| IsTrail(Inner(p), t) && Early(p, t.First()) && t.at == a;
        assert IsTrail(Inner(p), To(t, b)) && Early(p, To(t, b).First());
      }
    }
    if ReachableBlock(p, a) {
      var t :| IsTrailTo(p, t, p.entry, a);
      assert IsTrailTo(p, To(t, b), p.entry, b);
    }
  }

  lemma EntryUnaffected(p: Cfg)
    ensures !Affected(p, p.entry) && forall b :: !LeadsOn(p, b, p.entry)
  {
  }

  /** The blocks of `c` that `b` leads to. */
  ghost function Below(p: Cfg, c: set<BlockId>, b: BlockId): set<BlockId> {
    set x | x in c && LeadsOn(p, b, x)
  }

  lemma BelowShrinks(p: Cfg, c: set<BlockId>, e: EdgeId)
    requires e in p.edges && p.edges[e].target in c && p.entry !in c && !LeadsOn(p, p.edges[e].target, p.edges[e].target)
    ensures |Below(p, c, p.edges[e].target)| < |Below(p, c, p.edges[e].source)|
  {
    var a, b := p.edges[e].source, p.edges[e].target;
    var less, more := Below(p, c, b), Below(p, c, a);
    EdgeLeads(p, e);
    forall x | x in less ensures x in more {
      LeadsThrough(p, a, b, x);
    }
    assert b in more - less;
    assert more == less + (more - less);
  }

  lemma {:induction false} HasTop(p: Cfg, c: set<BlockId>, some: set<BlockId>) returns (b: BlockId)
    requires some != {}
    ensures b in some && forall x :: x in some ==> |Below(p, c, x)| <= |Below(p, c, b)|
  {
    b :| b in some;
    var rest := some - {b};
    assert some == rest + {b};
    if rest != {} {
      var top := HasTop(p, c, rest);
      if |Below(p, c, b)| < |Below(p, c, top)| {
        b := top;
      }
    }
  }

  /** Each block of `c` after every block that leads to it. */
  ghost predicate Downhill(p: Cfg, c: set<BlockId>, order: seq<BlockId>) {
    && Elems(order) == c
    && forall e, i, j {:trigger p.edges[e], order[i], order[j]} ::
         e in p.edges && 0 <= i < |order| && 0 <= j < |order| && p.edges[e].source == order[i] && p.edges[e].target == order[j] ==> i < j
  }

  ghost predicate Sinking(p: Cfg, c: set<BlockId>, order: seq<BlockId>) {
    forall i, j :: 0 <= i <= j < |order| ==> |Below(p, c, order[j])| <= |Below(p, c, order[i])|
  }

  lemma {:induction false} SortDown(p: Cfg, c: set<BlockId>, some: set<BlockId>) returns (order: seq<BlockId>)
    ensures Elems(order) == some && Sinking(p, c, order)
  {
    if some == {} {
      order := [];
    } else {
      var top := HasTop(p, c, some);
      var rest := SortDown(p, c, some - {top});
      order := [top] + rest;
      forall i, j | 0 <= i <= j < |order| ensures |Below(p, c, order[j])| <= |Below(p, c, order[i])| {
        assert i > 0 ==> order[i] == rest[i - 1];
        assert j > 0 ==> order[j] == rest[j - 1] && rest[j - 1] in Elems(rest);
      }
      assert Elems(order) == {top} + Elems(rest);
    }
  }

  /** Blocks without a cycle among them can be put in an order all edges follow. */
  lemma HasOrder(p: Cfg, c: set<BlockId>) returns (order: seq<BlockId>)
    requires p.entry !in c && forall b :: b in c ==> !LeadsOn(p, b, b)
    ensures Downhill(p, c, order)
  {
    order := SortDown(p, c, c);
    forall e, i, j | e in p.edges && 0 <= i < |order| && 0 <= j < |order| && p.edges[e].source == order[i] && p.edges[e].target == order[j]
      ensures i < j
    {
      assert order[j] in Elems(order);
      BelowShrinks(p, c, e);
    }
  }

  /** The queued blocks of `order` as a number, its first the most significant digit. */
  ghost function Code(order: seq<BlockId>, w: set<BlockId>): nat {
    if order == [] then 0
    else
      var n := |order| - 1;
      2 * Code(order[..n], w) + if order[n] in w then 1 else 0
  }

  lemma {:induction false} CodeSame(order: seq<BlockId>, w: set<BlockId>, w': set<BlockId>)
    requires forall j :: 0 <= j < |order| ==> (order[j] in w <==> order[j] in w')
    ensures Code(order, w) == Code(order, w')
  {
    if order != [] {
      CodeSame(order[..|order| - 1], w, w');
    }
  }

  /** Taking one block off and putting later ones on lowers the number. */
  lemma {:induction false} CodeFalls(order: seq<BlockId>, w: set<BlockId>, w': set<BlockId>, i: nat)
    requires i < |order| && order[i] in w && order[i] !in w'
    requires forall j :: 0 <= j < i ==> (order[j] in w <==> order[j] in w')
    ensures Code(order, w') < Code(order, w)
  {
    var n := |order| - 1;
    if i == n {
      CodeSame(order[..n], w, w');
    } else {
      CodeFalls(order[..n], w, w', i);
    }
  }

  /** The reachable blocks split in two: those entered in time, each along an edge from below but for the entry, and
      those early blocks lead to, in an order their edges follow. The latter lead back to the former at the entry only. */
  ghost predicate Divided(p: Cfg, reached: set<BlockId>, timely: set<BlockId>, order: seq<BlockId>) {
    && reached <= p.blocks.Keys && (forall b :: b in reached <==> ReachableBlock(p, b))
    && timely <= reached && p.entry in timely && Downhill(p, reached - timely, order)
    && (forall b {:trigger Fed(p, timely, b)} :: b in timely && b != p.entry ==> Fed(p, timely, b))
    && (forall e :: e in p.edges && p.edges[e].source in reached && p.edges[e].target in timely && p.edges[e].target != p.entry ==>
          p.edges[e].source in timely)
  }

  ghost predicate Fed(p: Cfg, timely: set<BlockId>, b: BlockId) {
    exists e :: e in p.edges && p.edges[e].target == b && p.edges[e].source < b && p.edges[e].source in timely
  }

  lemma EarlyAffected(p: Cfg, b: BlockId)
    ensures Early(p, b) ==> Affected(p, b)
  {
    assert IsTrail(Inner(p), From(b)) && From(b).First() == b;
  }

  lemma Divide(p: Cfg, reached: set<BlockId>) returns (timely: set<BlockId>, order: seq<BlockId>)
    requires EarlyAcyclic(p) && reached <= p.blocks.Keys && forall b :: b in reached <==> ReachableBlock(p, b)
    ensures Divided(p, reached, timely, order)
    ensures Ordered(p) ==> timely == reached
  {
    timely := set b | b in reached && !Affected(p, b);
    EntryUnaffected(p);
    assert IsTrailTo(p, From(p.entry), p.entry, p.entry);
    order := HasOrder(p, reached - timely);
    forall b | b in timely && b != p.entry ensures Fed(p, timely, b) {
      EarlyAffected(p, b);
      var e :| FromBelow(p, b, e);
      EdgeLeads(p, e);
    }
    forall e | e in p.edges && p.edges[e].source in reached && p.edges[e].target in timely && p.edges[e].target != p.entry
      ensures p.edges[e].source in timely
    {
      EdgeLeads(p, e);
    }
  }

  lemma OrderedAcyclic(p: Cfg)
    requires Ordered(p)
    ensures EarlyAcyclic(p) && forall b :: !Affected(p, b)
  {
    assert forall b :: !Early(p, b);
  }
}
