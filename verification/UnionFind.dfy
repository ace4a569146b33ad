/** Forests over `0..len`, their roots and the partition they stand for. */
module Forests {
  /** Every element has a parent; following parents ends, because `height` falls on the way to a root. */
  ghost predicate Forest(parent: seq<nat>, height: seq<nat>) {
    && |height| == |parent|
    && forall i {:trigger parent[i]} :: 0 <= i < |parent| ==> parent[i] < |parent| && (parent[i] != i ==> height[parent[i]] < height[i])
  }

  ghost function Root(parent: seq<nat>, height: seq<nat>, i: nat): (r: nat)
    requires Forest(parent, height) && i < |parent|
    ensures r < |parent| && parent[r] == r
    decreases height[i]
  {
    if parent[i] == i then i else Root(parent, height, parent[i])
  }

  /** How many parents lie between `i` and its root. */
  ghost function Depth(parent: seq<nat>, height: seq<nat>, i: nat): nat
    requires Forest(parent, height) && i < |parent|
    decreases height[i]
  {
    if parent[i] == i then 0 else 1 + Depth(parent, height, parent[i])
  }

  ghost function Class(parent: seq<nat>, height: seq<nat>, r: nat): set<nat>
    requires Forest(parent, height)
  {
    set x | 0 <= x < |parent| && Root(parent, height, x) == r
  }

  /** Pointing an element at its grandparent changes no root. */
  lemma {:induction false} HalvingKeepsRoots(parent: seq<nat>, height: seq<nat>, i: nat, j: nat)
    requires Forest(parent, height) && i < |parent| && j < |parent|
    ensures Forest(parent[i := parent[parent[i]]], height)
    ensures Root(parent[i := parent[parent[i]]], height, j) == Root(parent, height, j)
    decreases height[j]
  {
    var halved := parent[i := parent[parent[i]]];
    assert Forest(halved, height) by {
      assert parent[parent[i]] < |parent|;
    }
    if parent[j] != j {
      HalvingKeepsRoots(parent, height, i, parent[j]);
      if j == i && parent[parent[j]] != parent[j] {
        HalvingKeepsRoots(parent, height, i, parent[parent[j]]);
      }
    }
  }

  /** The heights once the tree of root `b` hangs below root `a`. */
  ghost function Raised(parent: seq<nat>, height: seq<nat>, a: nat, b: nat): (r: seq<nat>)
    requires Forest(parent, height) && a < |parent|
    ensures |r| == |parent|
  {
    seq(|parent|, x requires 0 <= x < |parent| => if Root(parent, height, x) == b then height[x] + height[a] + 1 else height[x])
  }

  lemma LinkForest(parent: seq<nat>, height: seq<nat>, a: nat, b: nat)
    requires Forest(parent, height) && a < |parent| && b < |parent| && a != b && parent[a] == a && parent[b] == b
    ensures Forest(parent[b := a], Raised(parent, height, a, b))
  {
    var linked, raised := parent[b := a], Raised(parent, height, a, b);
    forall i | 0 <= i < |linked| && linked[i] != i ensures raised[linked[i]] < raised[i] {
      assert parent[i] < |parent|;
    }
  }

  /** Hanging root `b` below root `a` moves exactly the elements of `b`'s tree to `a`. */
  lemma {:induction false} LinkRoots(parent: seq<nat>, height: seq<nat>, a: nat, b: nat, x: nat)
    requires Forest(parent, height) && a < |parent| && b < |parent| && a != b && parent[a] == a && parent[b] == b && x < |parent|
    ensures Forest(parent[b := a], Raised(parent, height, a, b))
    ensures Root(parent[b := a], Raised(parent, height, a, b), x) == if Root(parent, height, x) == b then a else Root(parent, height, x)
    decreases height[x]
  {
    LinkForest(parent, height, a, b);
    if parent[x] != x {
      LinkRoots(parent, height, a, b, parent[x]);
    }
  }

  function Pow2(n: nat): (r: nat)
    ensures r > 0
  {
    if n == 0 then 1 else 2 * Pow2(n - 1)
  }

  lemma {:induction false} Pow2Monotone(m: nat, n: nat)
    requires m <= n
    ensures Pow2(m) <= Pow2(n)
  {
    if m < n {
      Pow2Monotone(m, n - 1);
    }
  }

  /** Balanced: ranks rise towards the root, and a root of rank `k` has at least `2^k` elements. */
  ghost predicate Balanced(parent: seq<nat>, height: seq<nat>, rank: seq<nat>) {
    && Forest(parent, height) && |rank| == |parent|
    && (forall i {:trigger parent[i]} :: 0 <= i < |parent| && parent[i] != i ==> rank[i] < rank[parent[i]])
    && (forall r {:trigger Class(parent, height, r)} :: 0 <= r < |parent| && parent[r] == r ==> Pow2(rank[r]) <= |Class(parent, height, r)|)
  }

  lemma {:induction false} DepthWithinRank(parent: seq<nat>, height: seq<nat>, rank: seq<nat>, i: nat)
    requires Balanced(parent, height, rank) && i < |parent|
    ensures Depth(parent, height, i) + rank[i] <= rank[Root(parent, height, i)]
    decreases height[i]
  {
    if parent[i] != i {
      DepthWithinRank(parent, height, rank, parent[i]);
    }
  }

  lemma {:induction false} BelowSize(s: set<nat>, n: nat)
    requires forall x :: x in s ==> x < n
    ensures |s| <= n
  {
    if n > 0 {
      BelowSize(s - {n - 1}, n - 1);
      assert |s| <= |s - {n - 1}| + 1 by {
        if n - 1 in s {
          assert s == s - {n - 1} + {n - 1};
        } else {
          assert s == s - {n - 1};
        }
      }
    } else {
      assert s == {};
    }
  }

  /** Every chain is at most log2(len) long. */
  lemma ChainsLogarithmic(parent: seq<nat>, height: seq<nat>, rank: seq<nat>, i: nat)
    requires Balanced(parent, height, rank) && i < |parent|
    ensures Pow2(Depth(parent, height, i)) <= |parent|
  {
    var r := Root(parent, height, i);
    DepthWithinRank(parent, height, rank, i);
    Pow2Monotone(Depth(parent, height, i), rank[r]);
    assert Pow2(rank[r]) <= |Class(parent, height, r)|;
    BelowSize(Class(parent, height, r), |parent|);
  }

  /** Parents never exceed their children, so a root is the least of its class. */
  ghost predicate Descending(parent: seq<nat>) {
    forall i {:trigger parent[i]} :: 0 <= i < |parent| ==> parent[i] <= i
  }

  lemma {:induction false} RootIsMinimum(parent: seq<nat>, height: seq<nat>, i: nat)
    requires Forest(parent, height) && Descending(parent) && i < |parent|
    ensures Root(parent, height, i) <= i
    decreases height[i]
  {
    if parent[i] != i {
      RootIsMinimum(parent, height, parent[i]);
    }
  }

  lemma MinimumOfClass(parent: seq<nat>, height: seq<nat>, i: nat)
    requires Forest(parent, height) && Descending(parent) && i < |parent|
    ensures var r := Root(parent, height, i);
            r in Class(parent, height, r) && forall x :: x in Class(parent, height, r) ==> r <= x
  {
    var r := Root(parent, height, i);
    forall x | x in Class(parent, height, r) ensures r <= x {
      RootIsMinimum(parent, height, x);
    }
  }

  lemma HalvingBalanced(parent: seq<nat>, height: seq<nat>, rank: seq<nat>, i: nat)
    requires Balanced(parent, height, rank) && i < |parent|
    ensures Balanced(parent[i := parent[parent[i]]], height, rank)
  {
    var halved := parent[i := parent[parent[i]]];
    HalvingKeepsRoots(parent, height, i, i);
    assert parent[i] != i ==> rank[i] < rank[parent[i]];
    assert parent[parent[i]] != parent[i] ==> rank[parent[i]] < rank[parent[parent[i]]];
    forall r | 0 <= r < |parent| && halved[r] == r ensures Pow2(rank[r]) <= |Class(halved, height, r)| {
      assert parent[r] == r;
      assert Class(halved, height, r) == Class(parent, height, r) by {
        forall x | 0 <= x < |parent| ensures Root(halved, height, x) == Root(parent, height, x) {
          HalvingKeepsRoots(parent, height, i, x);
        }
      }
    }
  }

  /** What one halving step keeps. */
  lemma HalvingKeeps(parent: seq<nat>, height: seq<nat>, rank: seq<nat>, i: nat)
    requires Forest(parent, height) && i < |parent|
    ensures var halved := parent[i := parent[parent[i]]];
            && Forest(halved, height) && (forall j :: 0 <= j < |parent| ==> Root(halved, height, j) == Root(parent, height, j))
            && (Balanced(parent, height, rank) ==> Balanced(halved, height, rank))
            && (Descending(parent) ==> Descending(halved))
  {
    var halved := parent[i := parent[parent[i]]];
    HalvingKeepsRoots(parent, height, i, i);
    forall j | 0 <= j < |parent| ensures Root(halved, height, j) == Root(parent, height, j) {
      HalvingKeepsRoots(parent, height, i, j);
    }
    if Balanced(parent, height, rank) {
      HalvingBalanced(parent, height, rank, i);
    }
    if Descending(parent) {
      assert parent[i] <= i && parent[parent[i]] <= parent[i];
    }
  }

  lemma SingletonsBalanced(parent: seq<nat>, height: seq<nat>, rank: seq<nat>)
    requires |parent| == |height| == |rank| && forall i :: 0 <= i < |parent| ==> parent[i] == i && rank[i] == 0
    ensures Balanced(parent, height, rank) && Descending(parent)
    ensures forall i :: 0 <= i < |parent| ==> Root(parent, height, i) == i
  {
    forall r | 0 <= r < |parent| ensures Pow2(rank[r]) <= |Class(parent, height, r)| {
      assert r in Class(parent, height, r);
      assert |Class(parent, height, r)| > 0;
    }
  }

  lemma {:induction false} PushRoots(parent: seq<nat>, height: seq<nat>, i: nat)
    requires Forest(parent, height) && i < |parent|
    ensures Forest(parent + [|parent|], height + [0])
    ensures Root(parent + [|parent|], height + [0], i) == Root(parent, height, i)
    decreases height[i]
  {
    PushForest(parent, height);
    assert (parent + [|parent|])[i] == parent[i];
    if parent[i] != i {
      PushRoots(parent, height, parent[i]);
    }
  }

  lemma PushForest(parent: seq<nat>, height: seq<nat>)
    requires Forest(parent, height)
    ensures Forest(parent + [|parent|], height + [0])
  {
    var more := parent + [|parent|];
    forall i | 0 <= i < |more| && more[i] != i ensures (height + [0])[more[i]] < (height + [0])[i] {
      assert more[i] == parent[i];
    }
    assert forall i :: 0 <= i < |parent| ==> more[i] == parent[i];
  }

  lemma PushKeeps(parent: seq<nat>, height: seq<nat>, rank: seq<nat>)
    requires Forest(parent, height) && |rank| == |parent|
    ensures var (more, taller) := (parent + [|parent|], height + [0]);
            && Forest(more, taller) && (forall i :: 0 <= i < |parent| ==> Root(more, taller, i) == Root(parent, height, i))
            && Root(more, taller, |parent|) == |parent|
            && (Balanced(parent, height, rank) ==> Balanced(more, taller, rank + [0]))
            && (Descending(parent) ==> Descending(more))
  {
    var (more, taller) := (parent + [|parent|], height + [0]);
    PushForest(parent, height);
    forall i | 0 <= i < |parent| ensures Root(more, taller, i) == Root(parent, height, i) {
      PushRoots(parent, height, i);
    }
    assert forall i :: 0 <= i < |parent| ==> more[i] == parent[i];
    if Balanced(parent, height, rank) {
      PushBalanced(parent, height, rank);
    }
  }

  lemma PushBalanced(parent: seq<nat>, height: seq<nat>, rank: seq<nat>)
    requires Balanced(parent, height, rank)
    ensures Balanced(parent + [|parent|], height + [0], rank + [0])
  {
    var (more, taller, ranked) := (parent + [|parent|], height + [0], rank + [0]);
    PushForest(parent, height);
    forall i | 0 <= i < |more| && more[i] != i ensures ranked[i] < ranked[more[i]] {
      assert more[i] == parent[i];
    }
    forall r | 0 <= r < |more| && more[r] == r ensures Pow2(ranked[r]) <= |Class(more, taller, r)| {
      if r < |parent| {
        assert more[r] == parent[r];
        assert Class(more, taller, r) == Class(parent, height, r) by {
          forall i | 0 <= i < |parent| ensures Root(more, taller, i) == Root(parent, height, i) {
            PushRoots(parent, height, i);
          }
        }
      } else {
        assert r in Class(more, taller, r);
        assert |Class(more, taller, r)| > 0;
      }
    }
  }

  lemma LinkClasses(parent: seq<nat>, height: seq<nat>, a: nat, b: nat)
    requires Forest(parent, height) && a < |parent| && b < |parent| && a != b && parent[a] == a && parent[b] == b
    ensures var (linked, raised) := (parent[b := a], Raised(parent, height, a, b));
            && Forest(linked, raised)
            && |Class(linked, raised, a)| == |Class(parent, height, a)| + |Class(parent, height, b)|
            && forall r :: r != a && r != b ==> Class(linked, raised, r) == Class(parent, height, r)
  {
    var (linked, raised) := (parent[b := a], Raised(parent, height, a, b));
    LinkForest(parent, height, a, b);
    forall x | 0 <= x < |parent|
      ensures Root(linked, raised, x) == if Root(parent, height, x) == b then a else Root(parent, height, x)
    {
      LinkRoots(parent, height, a, b, x);
    }
    assert Class(linked, raised, a) == Class(parent, height, a) + Class(parent, height, b);
    assert Class(parent, height, a) !! Class(parent, height, b);
    forall r | r != a && r != b ensures Class(linked, raised, r) == Class(parent, height, r) {
    }
  }

  /** Linking by rank keeps the balance: the lower rank hangs below the higher, and a tie raises the survivor's. */
  lemma LinkBalanced(parent: seq<nat>, height: seq<nat>, rank: seq<nat>, a: nat, b: nat)
    requires Balanced(parent, height, rank) && a < |parent| && b < |parent| && a != b && parent[a] == a && parent[b] == b
    requires rank[b] <= rank[a]
    ensures Balanced(parent[b := a], Raised(parent, height, a, b), if rank[a] == rank[b] then rank[a := rank[a] + 1] else rank)
  {
    var (linked, raised) := (parent[b := a], Raised(parent, height, a, b));
    var ranked := if rank[a] == rank[b] then rank[a := rank[a] + 1] else rank;
    LinkClasses(parent, height, a, b);
    assert Pow2(rank[a]) <= |Class(parent, height, a)| && Pow2(rank[b]) <= |Class(parent, height, b)|;
    forall i | 0 <= i < |linked| && linked[i] != i ensures ranked[i] < ranked[linked[i]] {
      assert parent[i] < |parent|;
    }
    forall r | 0 <= r < |linked| && linked[r] == r ensures Pow2(ranked[r]) <= |Class(linked, raised, r)| {
      if r != a {
        assert parent[r] == r && r != b;
        assert Class(linked, raised, r) == Class(parent, height, r);
      }
    }
  }
}

/** The disjoint-set forest, updated in place. */
module UnionFind {
  import opened Forests

  class DisjointSet {
    var parent: seq<nat>
    var rank: seq<nat>
    ghost var height: seq<nat>

    ghost predicate Valid()
      reads this
    {
      Forest(parent, height) && |rank| == |parent|
    }

    /** The representative of `i`. */
    ghost function Rep(i: nat): nat
      requires Valid() && i < |parent|
      reads this
    {
      Root(parent, height, i)
    }

    constructor (len: nat)
      ensures Valid() && |parent| == len && forall i :: 0 <= i < len ==> Rep(i) == i
      ensures Balanced(parent, height, rank) && Descending(parent)
    {
      parent := seq(len, i => i);
      rank := seq(len, i => 0);
      height := seq(len, i => 0);
      new;
      SingletonsBalanced(parent, height, rank);
    }

    /** Back to `len` singletons. */
    method Reset(len: nat)
      modifies this
      ensures Valid() && |parent| == len && forall i :: 0 <= i < len ==> Rep(i) == i
      ensures Balanced(parent, height, rank) && Descending(parent)
    {
      parent, rank, height := seq(len, i => i), seq(len, i => 0), seq(len, i => 0);
      SingletonsBalanced(parent, height, rank);
    }

    /** Appends a singleton; no class changes. */
    method Push() returns (index: nat)
      requires Valid()
      modifies this
      ensures Valid() && index == old(|parent|) && |parent| == index + 1 && Rep(index) == index
      ensures forall i :: 0 <= i < index ==> Rep(i) == old(Rep(i))
      ensures old(Balanced(parent, height, rank)) ==> Balanced(parent, height, rank)
      ensures old(Descending(parent)) ==> Descending(parent)
    {
      index := |parent|;
      PushKeeps(parent, height, rank);
      parent, rank, height := parent + [index], rank + [0], height + [0];
    }

    /** The representative, with every visited element pointed at its grandparent. No class changes. */
    method Find(i: nat) returns (r: nat)
      requires Valid() && i < |parent|
      modifies this`parent
      ensures Valid() && |parent| == old(|parent|) && r == old(Rep(i)) && parent[r] == r
      ensures forall j :: 0 <= j < |parent| ==> Rep(j) == old(Rep(j))
      ensures forall j :: 0 <= j < |parent| && old(parent[j]) == j ==> parent[j] == j
      ensures old(Balanced(parent, height, rank)) ==> Balanced(parent, height, rank)
      ensures old(Descending(parent)) ==> Descending(parent)
    {
      r := i;
      while parent[r] != r
        invariant Valid() && |parent| == old(|parent|) && r < |parent| && Rep(r) == old(Rep(i))
        invariant forall j :: 0 <= j < |parent| ==> Rep(j) == old(Rep(j))
        invariant forall j :: 0 <= j < |parent| && old(parent[j]) == j ==> parent[j] == j
        invariant old(Balanced(parent, height, rank)) ==> Balanced(parent, height, rank)
        invariant old(Descending(parent)) ==> Descending(parent)
        decreases height[r]
      {
        HalvingKeeps(parent, height, rank, r);
        parent := parent[r := parent[parent[r]]];
        r := parent[r];
      }
    }

    /** The representative, without touching the forest. */
    method FindRoot(i: nat) returns (r: nat)
      requires Valid() && i < |parent|
      ensures r == Rep(i)
    {
      r := i;
      while parent[r] != r
        invariant r < |parent| && Rep(r) == Rep(i)
        decreases height[r]
      {
        r := parent[r];
      }
    }

    /** Hangs root `b` below root `a`. */
    method Link(a: nat, b: nat)
      requires Valid() && a < |parent| && b < |parent| && a != b && parent[a] == a && parent[b] == b
      modifies this`parent, this`height
      ensures Valid() && parent == old(parent)[b := a] && height == Raised(old(parent), old(height), a, b)
      ensures forall x :: 0 <= x < |parent| ==> Rep(x) == if old(Rep(x)) == b then a else old(Rep(x))
      ensures old(Balanced(parent, height, rank)) && rank[b] <= rank[a] ==>
                Balanced(parent, height, if rank[a] == rank[b] then rank[a := rank[a] + 1] else rank)
    {
      LinkForest(parent, height, a, b);
      if Balanced(parent, height, rank) && rank[b] <= rank[a] {
        LinkBalanced(parent, height, rank, a, b);
      }
      forall x | 0 <= x < |parent|
        ensures Root(parent[b := a], Raised(parent, height, a, b), x) == if Root(parent, height, x) == b then a else Root(parent, height, x)
      {
        LinkRoots(parent, height, a, b, x);
      }
      height := Raised(parent, height, a, b);
      parent := parent[b := a];
    }

    /** Merges exactly the two classes, by rank. The survivor is the root of the higher rank, the left one on a tie. */
    method Union(left: nat, right: nat) returns (merged: bool)
      requires Valid() && left < |parent| && right < |parent|
      modifies this
      ensures Valid() && |parent| == old(|parent|) && merged == (old(Rep(left)) != old(Rep(right)))
      ensures !merged ==> rank == old(rank) && forall x :: 0 <= x < |parent| ==> Rep(x) == old(Rep(x))
      ensures merged ==>
                var survivor := if old(rank[Rep(left)]) < old(rank[Rep(right)]) then old(Rep(right)) else old(Rep(left));
                && (forall x :: 0 <= x < |parent| ==>
                      Rep(x) == if old(Rep(x)) == old(Rep(left)) || old(Rep(x)) == old(Rep(right)) then survivor else old(Rep(x)))
                && rank == if old(rank[Rep(left)]) == old(rank[Rep(right)]) then old(rank)[survivor := old(rank)[survivor] + 1]
                           else old(rank)
      ensures old(Balanced(parent, height, rank)) ==> Balanced(parent, height, rank)
    {
      hide Balanced;
      var leftRoot := Find(left);
      var rightRoot := Find(right);
      if leftRoot == rightRoot {
        return false;
      }
      if rank[leftRoot] < rank[rightRoot] {
        Link(rightRoot, leftRoot);
      } else {
        Link(leftRoot, rightRoot);
        if rank[rightRoot] == rank[leftRoot] {
          rank := rank[leftRoot := rank[leftRoot] + 1];
        }
      }
      merged := true;
    }

    /** Merges exactly the two classes, keeping the smaller root. */
    method UnionTowardMin(left: nat, right: nat) returns (merged: bool)
      requires Valid() && left < |parent| && right < |parent|
      modifies this`parent, this`height
      ensures Valid() && |parent| == old(|parent|) && merged == (old(Rep(left)) != old(Rep(right)))
      ensures var l, r := old(Rep(left)), old(Rep(right));
              forall x :: 0 <= x < |parent| ==>
                Rep(x) == if old(Rep(x)) in {l, r} then (if l < r then l else r) else old(Rep(x))
      ensures old(Descending(parent)) ==> Descending(parent)
    {
      var leftRoot := Find(left);
      var rightRoot := Find(right);
      if leftRoot == rightRoot {
        return false;
      }
      if leftRoot < rightRoot {
        Link(leftRoot, rightRoot);
      } else {
        Link(rightRoot, leftRoot);
      }
      merged := true;
    }
  }
}
