/** What a transform did to the identities it touched, and how two such records compose. */
module Rewrites {
  import opened Sequences

  type Id = nat

  /** Replacements by old identity. An identity that is not mentioned is unchanged. */
  type Ids = map<Id, seq<Id>>

  predicate AllUnique(m: Ids) { forall x :: x in m ==> Unique(m[x]) }

  function PushUnique(run: seq<Id>, x: Id): seq<Id> { if x in run then run else run + [x] }

  function PushAll(run: seq<Id>, values: seq<Id>): seq<Id> {
    if values == [] then run else PushUnique(PushAll(run, values[..|values| - 1]), values[|values| - 1])
  }

  /** The values without repeats, each where it first occurs. */
  function Dedup(values: seq<Id>): seq<Id> { PushAll([], values) }

  /** What an identity became. */
  function Image(m: Ids, x: Id): seq<Id> { if x in m then m[x] else [x] }

  /** What several identities became, in order. */
  function Chase(m: Ids, s: seq<Id>): seq<Id> {
    if s == [] then [] else Chase(m, s[..|s| - 1]) + Image(m, s[|s| - 1])
  }

  function Chased(current: Ids, next: Ids): Ids { map x | x in current :: Dedup(Chase(next, current[x])) }

  /** The record of both transforms. */
  function Composed(first: Ids, next: Ids): Ids {
    map x | x in first.Keys + next.Keys :: if x in first then Dedup(Chase(next, first[x])) else next[x]
  }

  lemma {:induction false} PushAllHas(run: seq<Id>, values: seq<Id>, x: Id)
    ensures x in PushAll(run, values) <==> x in run || x in values
  {
    if values != [] {
      var n := |values| - 1;
      PushAllHas(run, values[..n], x);
      assert values == values[..n] + [values[n]];
    }
  }

  lemma {:induction false} PushAllUnique(run: seq<Id>, values: seq<Id>)
    requires Unique(run)
    ensures Unique(PushAll(run, values)) && run <= PushAll(run, values)
  {
    if values != [] {
      PushAllUnique(run, values[..|values| - 1]);
    }
  }

  lemma {:induction false} PushAllJoin(run: seq<Id>, u: seq<Id>, v: seq<Id>)
    ensures PushAll(run, u + v) == PushAll(PushAll(run, u), v)
  {
    if v == [] {
      assert u + v == u;
    } else {
      PushAllJoin(run, u, v[..|v| - 1]);
      assert (u + v)[..|u + v| - 1] == u + v[..|v| - 1];
    }
  }

  lemma {:induction false} PushNothingNew(run: seq<Id>, values: seq<Id>)
    requires forall i :: 0 <= i < |values| ==> values[i] in run
    ensures PushAll(run, values) == run
  {
    if values != [] {
      PushNothingNew(run, values[..|values| - 1]);
    }
  }

  /** Repeats make no difference to what is pushed. */
  lemma {:induction false} PushDedup(run: seq<Id>, values: seq<Id>)
    ensures PushAll(run, Dedup(values)) == PushAll(run, values)
  {
    if values != [] {
      var n := |values| - 1;
      PushDedup(run, values[..n]);
      PushAllHas(run, values[..n], values[n]);
      PushAllHas([], values[..n], values[n]);
      if values[n] !in values[..n] {
        assert Dedup(values)[..|Dedup(values[..n])|] == Dedup(values[..n]);
      }
    }
  }

  lemma {:induction false} DedupSame(values: seq<Id>)
    requires Unique(values)
    ensures Dedup(values) == values
  {
    if values != [] {
      var n := |values| - 1;
      DedupSame(values[..n]);
      assert values == values[..n] + [values[n]];
    }
  }

  function FirstAt(s: seq<Id>, x: Id): nat
    requires x in s
  {
    if s[0] == x then 0 else 1 + FirstAt(s[1..], x)
  }

  lemma {:induction false} FirstAtMeaning(s: seq<Id>, x: Id)
    requires x in s
    ensures FirstAt(s, x) < |s| && s[FirstAt(s, x)] == x && forall i :: 0 <= i < FirstAt(s, x) ==> s[i] != x
  {
    if s[0] != x {
      FirstAtMeaning(s[1..], x);
    }
  }

  lemma {:induction false} FirstAtPrefix(s: seq<Id>, t: seq<Id>, x: Id)
    requires x in s && s <= t
    ensures x in t && FirstAt(t, x) == FirstAt(s, x)
  {
    FirstAtMeaning(s, x);
    FirstAtMeaning(t, x);
  }

  /** Deduplication keeps exactly the values, once each, in the order of their first occurrences. */
  lemma {:induction false} DedupMeaning(values: seq<Id>, x: Id, y: Id)
    ensures Unique(Dedup(values)) && (x in Dedup(values) <==> x in values)
    ensures x in values && y in values ==>
              x in Dedup(values) && y in Dedup(values)
              && (FirstAt(Dedup(values), x) < FirstAt(Dedup(values), y) <==> FirstAt(values, x) < FirstAt(values, y))
  {
    PushAllUnique([], values);
    PushAllHas([], values, x);
    PushAllHas([], values, y);
    if x in values && y in values {
      var n := |values| - 1;
      DedupMeaning(values[..n], x, y);
      DedupOrder(values, x, y);
    }
  }

  lemma DedupOrder(values: seq<Id>, x: Id, y: Id)
    requires values != [] && x in values && y in values && x in Dedup(values) && y in Dedup(values)
    requires var less := values[..|values| - 1];
             x in less && y in less ==>
               x in Dedup(less) && y in Dedup(less)
               && (FirstAt(Dedup(less), x) < FirstAt(Dedup(less), y) <==> FirstAt(less, x) < FirstAt(less, y))
    ensures FirstAt(Dedup(values), x) < FirstAt(Dedup(values), y) <==> FirstAt(values, x) < FirstAt(values, y)
  {
    var n := |values| - 1;
    var less := values[..n];
    LastSeen(values, x);
    LastSeen(values, y);
    assert x in less || x == values[n];
    assert y in less || y == values[n];
  }

  /** Where the last value of a sequence first occurs, with and without repeats. */
  lemma LastSeen(values: seq<Id>, x: Id)
    requires values != [] && x in values && x in Dedup(values)
    ensures var n := |values| - 1; var less := values[..n];
            if x in less then x in Dedup(less) && FirstAt(values, x) == FirstAt(less, x) < n
                              && FirstAt(Dedup(values), x) == FirstAt(Dedup(less), x) < |Dedup(less)|
            else FirstAt(values, x) == n && FirstAt(Dedup(values), x) == |Dedup(less)|
  {
    var n := |values| - 1;
    var less := values[..n];
    PushAllHas([], less, x);
    FirstAtMeaning(values, x);
    FirstAtMeaning(Dedup(values), x);
    if x in less {
      FirstAtMeaning(less, x);
      FirstAtMeaning(Dedup(less), x);
      FirstAtPrefix(less, values, x);
      FirstAtPrefix(Dedup(less), Dedup(values), x);
    } else {
      assert values == less + [values[n]];
      assert forall i :: 0 <= i < n ==> values[i] in less;
      assert Dedup(values) == Dedup(less) + [x];
    }
  }

  lemma {:induction false} ChaseJoin(m: Ids, u: seq<Id>, v: seq<Id>)
    ensures Chase(m, u + v) == Chase(m, u) + Chase(m, v)
  {
    if v == [] {
      assert u + v == u;
    } else {
      ChaseJoin(m, u, v[..|v| - 1]);
      assert (u + v)[..|u + v| - 1] == u + v[..|v| - 1];
    }
  }

  lemma {:induction false} ChaseHas(m: Ids, s: seq<Id>, x: Id, y: Id)
    requires x in s && y in Image(m, x)
    ensures y in Chase(m, s)
  {
    var n := |s| - 1;
    if s[n] != x {
      ChaseHas(m, s[..n], x, y);
    }
  }

  lemma ChaseOne(m: Ids, x: Id)
    ensures Chase(m, [x]) == Image(m, x)
  {
    assert [x][..0] == [];
    assert Chase(m, []) == [];
  }

  /** Composition is relational: an identity becomes what the second transform made of what the first made of it. */
  lemma ComposeIsRelational(first: Ids, next: Ids, x: Id)
    requires AllUnique(next)
    ensures Image(Composed(first, next), x) == Dedup(Chase(next, Image(first, x)))
  {
    if x !in first {
      ChaseOne(next, x);
      DedupSame(Image(next, x));
    }
  }

  lemma {:induction false} ChaseDedup(m: Ids, s: seq<Id>)
    ensures Dedup(Chase(m, Dedup(s))) == Dedup(Chase(m, s))
  {
    if s != [] {
      var n := |s| - 1;
      ChaseDedup(m, s[..n]);
      PushAllHas([], s[..n], s[n]);
      PushAllJoin([], Chase(m, s[..n]), Image(m, s[n]));
      if s[n] in s[..n] {
        forall i | 0 <= i < |Image(m, s[n])| ensures Image(m, s[n])[i] in Dedup(Chase(m, s[..n])) {
          ChaseHas(m, s[..n], s[n], Image(m, s[n])[i]);
          PushAllHas([], Chase(m, s[..n]), Image(m, s[n])[i]);
        }
        PushNothingNew(Dedup(Chase(m, s[..n])), Image(m, s[n]));
      } else {
        assert Dedup(s)[..|Dedup(s)| - 1] == Dedup(s[..n]);
        PushAllJoin([], Chase(m, Dedup(s[..n])), Image(m, s[n]));
      }
    }
  }

  /** Chasing through a composed record is chasing through its parts. */
  lemma {:induction false} ChaseComposed(b: Ids, c: Ids, s: seq<Id>)
    requires AllUnique(c)
    ensures Dedup(Chase(Composed(b, c), s)) == Dedup(Chase(c, Chase(b, s)))
  {
    if s != [] {
      var n := |s| - 1;
      var bc := Composed(b, c);
      var more := Chase(c, Image(b, s[n]));
      ChaseComposed(b, c, s[..n]);
      ComposeIsRelational(b, c, s[n]);
      PushAllJoin([], Chase(bc, s[..n]), Dedup(more));
      PushDedup(Dedup(Chase(bc, s[..n])), more);
      ChaseJoin(c, Chase(b, s[..n]), Image(b, s[n]));
      PushAllJoin([], Chase(c, Chase(b, s[..n])), more);
    }
  }

  /** Three transforms compose to the same record whichever pair is composed first. */
  lemma ComposeAssociative(a: Ids, b: Ids, c: Ids)
    requires AllUnique(b) && AllUnique(c)
    ensures Composed(Composed(a, b), c) == Composed(a, Composed(b, c))
  {
    var left, right := Composed(Composed(a, b), c), Composed(a, Composed(b, c));
    forall x ensures (x in left <==> x in right) && (x in left && x in right ==> left[x] == right[x]) {
      AssociativeAt(a, b, c, Composed(a, b), Composed(b, c), x);
    }
    SameIds(left, right);
  }

  lemma SameIds(a: Ids, b: Ids)
    requires forall x :: (x in a <==> x in b) && (x in a && x in b ==> a[x] == b[x])
    ensures a == b
  {
  }

  /** One identity of a composed record. */
  lemma ComposedAt(first: Ids, next: Ids, x: Id)
    ensures x in Composed(first, next) <==> x in first || x in next
    ensures x in first ==> Composed(first, next)[x] == Dedup(Chase(next, first[x]))
    ensures x !in first && x in next ==> Composed(first, next)[x] == next[x]
  {
  }

  lemma AssociativeAt(a: Ids, b: Ids, c: Ids, ab: Ids, bc: Ids, x: Id)
    requires AllUnique(b) && AllUnique(c) && ab == Composed(a, b) && bc == Composed(b, c)
    ensures x in Composed(ab, c) <==> x in Composed(a, bc)
    ensures x in Composed(ab, c) && x in Composed(a, bc) ==> Composed(ab, c)[x] == Composed(a, bc)[x]
  {
    ComposedAt(a, b, x);
    ComposedAt(b, c, x);
    ComposedAt(ab, c, x);
    ComposedAt(a, bc, x);
    if x in a {
      ChaseDedup(c, Chase(b, a[x]));
      ChaseComposed(b, c, a[x]);
    }
  }

  lemma ComposeUnique(first: Ids, next: Ids)
    requires AllUnique(next)
    ensures AllUnique(Composed(first, next))
  {
    forall x | x in first ensures Unique(Dedup(Chase(next, first[x]))) {
      PushAllUnique([], Chase(next, first[x]));
    }
  }

  /** The created identities after composition: those of the first transform looked up in the composed record, then those
      of the second. */
  function CreatedAfter(created: seq<Id>, composed: Ids, more: seq<Id>): seq<Id> {
    PushAll(Dedup(Chase(composed, created)), more)
  }

  /** The created identities of the first transform end up as what the second made of them, whatever the second is. */
  ghost predicate CreatedRight(first: Ids, created: seq<Id>) {
    forall next: Ids, more {:trigger CreatedAfter(created, Composed(first, next), more)} :: AllUnique(next) ==>
      CreatedAfter(created, Composed(first, next), more) == PushAll(Dedup(Chase(next, created)), more)
  }

  /** They do exactly when the first record, applied to the list it was made with, gives that list back. */
  lemma CreatedExact(first: Ids, created: seq<Id>)
    ensures CreatedRight(first, created) <==> Dedup(Chase(first, created)) == Dedup(created)
  {
    if CreatedRight(first, created) {
      var none: Ids := map[];
      assert CreatedAfter(created, Composed(first, none), []) == PushAll(Dedup(Chase(none, created)), []);
      ChaseComposed(first, none, created);
      ChaseNothing(created);
      ChaseNothing(Chase(first, created));
    }
    if Dedup(Chase(first, created)) == Dedup(created) {
      forall next: Ids, more | AllUnique(next)
        ensures CreatedAfter(created, Composed(first, next), more) == PushAll(Dedup(Chase(next, created)), more)
      {
        ChaseComposed(first, next, created);
        ChaseDedup(next, Chase(first, created));
        ChaseDedup(next, created);
      }
    }
  }

  lemma {:induction false} ChaseNothing(s: seq<Id>)
    ensures Chase(map[], s) == s
  {
    if s != [] {
      var n := |s| - 1;
      ChaseNothing(s[..n]);
      assert s == s[..n] + [s[n]];
    }
  }

  /** A record that renames or removes, but does not split, keeps them right exactly when it leaves each of them alone. */
  lemma CreatedUnmoved(first: Ids, created: seq<Id>)
    requires Unique(created) && forall i :: 0 <= i < |created| ==> |Image(first, created[i])| <= 1
    ensures CreatedRight(first, created) <==> forall i :: 0 <= i < |created| ==> Image(first, created[i]) == [created[i]]
  {
    CreatedExact(first, created);
    DedupSame(created);
    ChaseSingles(first, created);
    DedupLength(Chase(first, created));
    if Dedup(Chase(first, created)) == created {
      DedupWhole(Chase(first, created));
    }
  }

  lemma {:induction false} ChaseSingles(m: Ids, s: seq<Id>)
    requires forall i :: 0 <= i < |s| ==> |Image(m, s[i])| <= 1
    ensures |Chase(m, s)| <= |s|
    ensures Chase(m, s) == s <==> forall i :: 0 <= i < |s| ==> Image(m, s[i]) == [s[i]]
  {
    if s != [] {
      var n := |s| - 1;
      hide Image;
      ChaseSingles(m, s[..n]);
      assert s == s[..n] + [s[n]];
      EndsAlike(Chase(m, s[..n]), Image(m, s[n]), s[..n], s[n]);
    }
  }

  lemma EndsAlike(u: seq<Id>, v: seq<Id>, s: seq<Id>, x: Id)
    requires |u| <= |s| && |v| <= 1
    ensures u + v == s + [x] <==> u == s && v == [x]
  {
    if u + v == s + [x] {
      assert (u + v)[..|s|] == s && (u + v)[|s|] == x;
    }
  }

  lemma {:induction false} DedupLength(values: seq<Id>)
    ensures |Dedup(values)| <= |values|
  {
    if values != [] {
      DedupLength(values[..|values| - 1]);
    }
  }

  /** Without repeats to drop, deduplication changes nothing. */
  lemma {:induction false} DedupWhole(values: seq<Id>)
    ensures |Dedup(values)| == |values| ==> Dedup(values) == values
  {
    if values != [] {
      var n := |values| - 1;
      DedupLength(values[..n]);
      DedupWhole(values[..n]);
      assert values == values[..n] + [values[n]];
    }
  }

  lemma KeepsBoth(first: Ids, x: Id, y: Id)
    requires x != y && Image(first, x) == [x, y] && Image(first, y) == [y]
    ensures CreatedRight(first, [x, y])
  {
    hide CreatedRight, Chase, PushAll, Image;
    CreatedExact(first, [x, y]);
    ChaseJoin(first, [x], [y]);
    ChaseOne(first, x);
    ChaseOne(first, y);
    assert [x] + [y] == [x, y];
    PushAllJoin([], [x, y], [y]);
    DedupSame([x, y]);
    PushNothingNew([x, y], [y]);
  }

  /** One that splits may map a created identity to more than itself and still keep them right. */
  lemma SplitKeepsCreated()
    ensures exists first: Ids :: CreatedRight(first, [1, 2]) && Image(first, 1) == [1, 2]
  {
    var first: Ids := map[1 := [1, 2]];
    KeepsBoth(first, 1, 2);
  }

  lemma ComposeNothing(first: Ids)
    requires AllUnique(first)
    ensures Composed(first, map[]) == first
  {
    hide Chase, PushAll;
    forall x | x in first ensures Dedup(Chase(map[], first[x])) == first[x] {
      ChaseNothing(first[x]);
      DedupSame(first[x]);
    }
  }

  /** One that exchanges two identities does not keep them right: composed even with an empty record, it moves what it
      created, because the created identity is looked up in the record it was made with. */
  lemma EmptyMovesCreated(first: Ids, x: Id, y: Id)
    requires AllUnique(first) && x != y && Image(first, x) == [y]
    ensures Composed(first, map[]) == first && CreatedAfter([x], Composed(first, map[]), []) == [y]
    ensures !CreatedRight(first, [x])
  {
    hide CreatedRight, Chase, PushAll;
    ComposeNothing(first);
    CreatedExact(first, [x]);
    ChaseOne(first, x);
    DedupSame([x]);
    DedupSame([y]);
    CreatedAlone(first, [x]);
  }

  lemma SwapMovesCreated()
    ensures var first: Ids := map[1 := [2], 2 := [1]];
            Composed(first, map[]) == first && CreatedAfter([1], Composed(first, map[]), []) == [2]
  {
    var first: Ids := map[1 := [2], 2 := [1]];
    EmptyMovesCreated(first, 1, 2);
  }

  lemma CreatedAlone(composed: Ids, created: seq<Id>)
    ensures CreatedAfter(created, composed, []) == Dedup(Chase(composed, created))
  {
  }

  method UniqueOf(values: seq<Id>) returns (r: seq<Id>)
    ensures r == Dedup(values)
  {
    r := [];
    for i := 0 to |values|
      invariant r == Dedup(values[..i])
    {
      assert values[..i + 1][..i] == values[..i];
      r := PushUnique(r, values[i]);
    }
    assert values[..|values|] == values;
  }

  /** Chases each of `values` through `next`, keeping the first of each replacement. */
  method ChaseUnique(next: Ids, values: seq<Id>) returns (r: seq<Id>)
    ensures r == Dedup(Chase(next, values))
  {
    r := [];
    for i := 0 to |values|
      invariant r == Dedup(Chase(next, values[..i]))
    {
      var image := Image(next, values[i]);
      assert values[..i + 1][..i] == values[..i];
      PushAllJoin([], Chase(next, values[..i]), image);
      ghost var before := r;
      for j := 0 to |image|
        invariant r == PushAll(before, image[..j])
      {
        assert image[..j + 1][..j] == image[..j];
        r := PushUnique(r, image[j]);
      }
      assert image[..|image|] == image;
    }
    assert values[..|values|] == values;
  }

  method ComposeAxis(current: Ids, next: Ids) returns (r: Ids)
    ensures r == Chased(current, next)
  {
    r := current;
    var left := current.Keys;
    while left != {}
      invariant left <= current.Keys == r.Keys
      invariant forall x :: x in r ==> r[x] == if x in left then current[x] else Dedup(Chase(next, current[x]))
      decreases |left|
    {
      var x :| x in left;
      var composed := ChaseUnique(next, r[x]);
      r := r[x := composed];
      left := left - {x};
    }
  }

  /** Adds the entries of `next` that `current` does not have. */
  method AddMissing(current: Ids, next: Ids) returns (r: Ids)
    ensures forall x :: x in r <==> x in current || x in next
    ensures forall x :: x in r ==> r[x] == if x in current then current[x] else next[x]
  {
    r := current;
    var left := next.Keys;
    while left != {}
      invariant forall x :: x in left ==> x in next
      invariant forall x :: x in r <==> x in current || (x in next && (x !in left || x in current))
      invariant forall x :: x in r ==> r[x] == if x in current then current[x] else next[x]
      decreases |left|
    {
      var x :| x in left;
      if x !in r {
        r := r[x := next[x]];
      }
      left := left - {x};
    }
  }

  class Rewrite {
    var blocks: Ids
    var edges: Ids
    var createdBlocks: seq<Id>
    var createdEdges: seq<Id>

    /** No replacement list repeats an identity. */
    ghost predicate Valid()
      reads this
    {
      AllUnique(blocks) && AllUnique(edges) && Unique(createdBlocks) && Unique(createdEdges)
    }

    constructor ()
      ensures blocks == map[] && edges == map[] && createdBlocks == [] && createdEdges == [] && Valid()
    {
      blocks, edges, createdBlocks, createdEdges := map[], map[], [], [];
    }

    method RecordBlock(was: Id, replacements: seq<Id>)
      requires Valid()
      modifies this`blocks
      ensures Valid() && blocks == old(blocks)[was := Dedup(replacements)]
    {
      PushAllUnique([], replacements);
      var unique := UniqueOf(replacements);
      blocks := blocks[was := unique];
    }

    method RecordEdge(was: Id, replacements: seq<Id>)
      requires Valid()
      modifies this`edges
      ensures Valid() && edges == old(edges)[was := Dedup(replacements)]
    {
      PushAllUnique([], replacements);
      var unique := UniqueOf(replacements);
      edges := edges[was := unique];
    }

    method RecordCreatedBlock(block: Id)
      requires Valid()
      modifies this`createdBlocks
      ensures Valid() && createdBlocks == PushUnique(old(createdBlocks), block)
    {
      createdBlocks := PushUnique(createdBlocks, block);
    }

    method RecordCreatedEdge(edge: Id)
      requires Valid()
      modifies this`createdEdges
      ensures Valid() && createdEdges == PushUnique(old(createdEdges), edge)
    {
      createdEdges := PushUnique(createdEdges, edge);
    }

    /** Composes `next`, which ran after this rewrite, into this record. */
    method Compose(next: Rewrite)
      requires Valid() && next.Valid() && next != this
      modifies this
      ensures Valid()
      ensures blocks == Composed(old(blocks), next.blocks) && edges == Composed(old(edges), next.edges)
      ensures createdBlocks == CreatedAfter(old(createdBlocks), blocks, next.createdBlocks)
      ensures createdEdges == CreatedAfter(old(createdEdges), edges, next.createdEdges)
    {
      blocks := ComposeMaps(blocks, next.blocks);
      edges := ComposeMaps(edges, next.edges);
      createdBlocks := ComposeCreated(createdBlocks, blocks, next.createdBlocks);
      createdEdges := ComposeCreated(createdEdges, edges, next.createdEdges);
    }
  }

  method ComposeMaps(current: Ids, next: Ids) returns (r: Ids)
    requires AllUnique(next)
    ensures r == Composed(current, next) && AllUnique(r)
  {
    var chased := ComposeAxis(current, next);
    r := AddMissing(chased, next);
    forall x
      ensures (x in r <==> x in Composed(current, next))
      ensures x in r && x in Composed(current, next) ==> r[x] == Composed(current, next)[x]
    {
      ComposedAt(current, next, x);
    }
    SameIds(r, Composed(current, next));
    ComposeUnique(current, next);
  }

  method ComposeCreated(created: seq<Id>, composed: Ids, more: seq<Id>) returns (r: seq<Id>)
    ensures r == CreatedAfter(created, composed, more) && Unique(r)
  {
    PushAllUnique([], Chase(composed, created));
    PushAllUnique(Dedup(Chase(composed, created)), more);
    r := ChaseUnique(composed, created);
    r := AppendUnique(r, more);
  }

  method AppendUnique(run: seq<Id>, values: seq<Id>) returns (r: seq<Id>)
    ensures r == PushAll(run, values)
  {
    r := run;
    for i := 0 to |values|
      invariant r == PushAll(run, values[..i])
    {
      assert values[..i + 1][..i] == values[..i];
      r := PushUnique(r, values[i]);
    }
    assert values[..|values|] == values;
  }
}
