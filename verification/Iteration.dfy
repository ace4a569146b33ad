/** Chaotic iteration over a worklist: what every solver in this library has in common. A system is a set of nodes,
    each of which recomputes the facts in its own slots from the slots that wake it. */
module Iteration {
  import opened Wrappers
  import opened Program

  /** Where a fact lives: at a node's physical start, at its physical end, or on an edge. */
  datatype Slot = In(node: nat) | Out(node: nat) | On(edge: nat)

  datatype System<!F, !E> = System(nodes: set<nat>, owner: map<Slot, nat>, wakes: map<Slot, set<nat>>, bottom: F,
                                   compute: (nat, map<Slot, F>) -> Result<map<Slot, F>, E>)

  datatype State<F> = State(facts: map<Slot, F>, worklist: set<nat>)

  /** Why a solve stopped early. */
  datatype Stop<E> = StepLimitExceeded(limit: nat, steps: nat, pending: nat) | Problem(error: E)

  function Owned<F, E>(sys: System<F, E>, n: nat): set<Slot> {
    set s | s in sys.owner && sys.owner[s] == n
  }

  lemma {:induction false} HasFirst(w: set<nat>)
    requires w != {}
    ensures exists n :: n in w && forall x :: x in w ==> n <= x
  {
    var n :| n in w;
    if x :| x in w && x < n {
      var below := set y | y in w && y < n;
      assert x in below && n !in below;
      HasFirst(below);
      var m :| m in below && forall y :: y in below ==> m <= y;
      forall y | y in w ensures m <= y {
        assert y < n ==> y in below;
      }
      assert m in w;
    }
  }

  /** The queued node popped next. */
  function First(w: set<nat>): (n: nat)
    requires w != {}
    ensures n in w && forall x :: x in w ==> n <= x
  {
    HasFirst(w);
    var n :| n in w && forall x :: x in w ==> n <= x;
    n
  }

  /** The nodes woken when the facts of `now` replace those of `before`. */
  function Woken<F(==)>(wakes: map<Slot, set<nat>>, before: map<Slot, F>, now: map<Slot, F>): set<nat> {
    set s, x | s in now && s in before && now[s] != before[s] && s in wakes && x in wakes[s] :: x
  }

  /** One visit of the first queued node. */
  function Visit<F(==), E>(sys: System<F, E>, st: State<F>): Result<State<F>, E>
    requires st.worklist != {}
  {
    var n := First(st.worklist);
    match sys.compute(n, st.facts)
    case Err(e) => Err(e)
    case Ok(now) => Ok(State(st.facts + now, st.worklist - {n} + Woken(sys.wakes, st.facts, now)))
  }

  function Initial<F, E>(sys: System<F, E>, seeds: set<nat>): State<F> {
    State(map s | s in sys.owner :: sys.bottom, seeds)
  }

  /** The state after `k` visits, or the first error met on the way. A finished solve stays as it is. */
  function RunFor<F(==), E>(sys: System<F, E>, seeds: set<nat>, k: nat): Result<State<F>, E> {
    if k == 0 then Ok(Initial(sys, seeds))
    else
      match RunFor(sys, seeds, k - 1)
      case Err(e) => Err(e)
      case Ok(st) => if st.worklist == {} then Ok(st) else Visit(sys, st)
  }

  /** A bounded-height order on facts: `height` is how far a fact can still rise. The facts it speaks of are those that
      are below themselves. */
  datatype Order<!F> = Order(le: (F, F) -> bool, height: F -> nat)

  ghost predicate IsOrder<F(!new)>(o: Order<F>, bottom: F) {
    && (forall x, y :: o.le(x, y) ==> o.le(x, x) && o.le(y, y))
    && (forall x, y :: o.le(x, y) && o.le(y, x) ==> x == y)
    && (forall x, y, z :: o.le(x, y) && o.le(y, z) ==> o.le(x, z))
    && (forall x, y :: o.le(x, y) && x != y ==> o.height(y) < o.height(x))
    && o.le(bottom, bottom) && (forall x :: o.le(x, x) ==> o.le(bottom, x))
  }

  /** Every fact is one the order speaks of. */
  ghost predicate Proper<F>(o: Order<F>, m: map<Slot, F>) {
    forall s :: s in m ==> o.le(m[s], m[s])
  }

  ghost predicate Leq<F, E>(sys: System<F, E>, o: Order<F>, m: map<Slot, F>, m': map<Slot, F>) {
    && m.Keys == sys.owner.Keys && m'.Keys == sys.owner.Keys
    && forall s :: s in sys.owner ==> o.le(m[s], m'[s])
  }

  /** Rejection is the greatest outcome. */
  ghost predicate ResultLeq<F, E>(o: Order<F>, own: set<Slot>, a: Result<map<Slot, F>, E>, b: Result<map<Slot, F>, E>) {
    b.Err? || (a.Ok? && a.value.Keys == own && b.value.Keys == own && forall s :: s in own ==> o.le(a.value[s], b.value[s]))
  }

  ghost predicate AgreeWhereWoken<F, E>(sys: System<F, E>, n: nat, m: map<Slot, F>, m': map<Slot, F>) {
    && m.Keys == sys.owner.Keys && m'.Keys == sys.owner.Keys
    && forall s :: s in sys.owner && s in sys.wakes && n in sys.wakes[s] ==> m[s] == m'[s]
  }

  /** Nodes recompute their own slots, only from slots that wake them. */
  ghost predicate Wired<F(!new), E(!new)>(sys: System<F, E>) {
    && (forall s :: s in sys.owner ==> sys.owner[s] in sys.nodes)
    && (forall s, x :: s in sys.wakes && x in sys.wakes[s] ==> x in sys.nodes)
    && (forall n, m: map<Slot, F> {:trigger sys.compute(n, m)} :: n in sys.nodes && m.Keys == sys.owner.Keys ==>
          sys.compute(n, m).Ok? ==> sys.compute(n, m).value.Keys == Owned(sys, n))
    && (forall n, m: map<Slot, F>, m': map<Slot, F> {:trigger sys.compute(n, m), sys.compute(n, m')} ::
          n in sys.nodes && AgreeWhereWoken(sys, n, m, m') ==> sys.compute(n, m) == sys.compute(n, m'))
  }

  /** Nodes recompute monotonically. */
  ghost predicate Lawful<F(!new), E(!new)>(sys: System<F, E>, o: Order<F>) {
    && Wired(sys) && IsOrder(o, sys.bottom)
    && (forall n, m: map<Slot, F>, m': map<Slot, F> {:trigger sys.compute(n, m), sys.compute(n, m')} ::
          n in sys.nodes && Leq(sys, o, m, m') ==>
            ResultLeq(o, Owned(sys, n), sys.compute(n, m), sys.compute(n, m')))
  }

  /** The facts of `n` satisfy its equation. */
  ghost predicate Settled<F(!new), E(!new)>(sys: System<F, E>, m: map<Slot, F>, n: nat) {
    && sys.compute(n, m).Ok?
    && forall s :: s in Owned(sys, n) ==> s in m && s in sys.compute(n, m).value && m[s] == sys.compute(n, m).value[s]
  }

  /** Nothing has reached `n`. */
  ghost predicate Asleep<F(!new), E(!new)>(sys: System<F, E>, seeds: set<nat>, m: map<Slot, F>, n: nat) {
    && n !in seeds
    && forall s :: s in m && (s in Owned(sys, n) || (s in sys.wakes && n in sys.wakes[s])) ==> m[s] == sys.bottom
  }

  ghost predicate Rising<F(!new), E(!new)>(sys: System<F, E>, o: Order<F>, m: map<Slot, F>, n: nat) {
    sys.compute(n, m).Ok? ==>
      forall s :: s in Owned(sys, n) ==> s in m && s in sys.compute(n, m).value && o.le(m[s], sys.compute(n, m).value[s])
  }

  /** What every visit keeps: a node that is not queued satisfies its equation, or nothing has reached it. */
  ghost predicate Balanced<F(!new), E(!new)>(sys: System<F, E>, seeds: set<nat>, st: State<F>) {
    && st.facts.Keys == sys.owner.Keys && st.worklist <= sys.nodes
    && (forall n {:trigger Settled(sys, st.facts, n)} {:trigger Asleep(sys, seeds, st.facts, n)} ::
          n in sys.nodes && n !in st.worklist ==> Settled(sys, st.facts, n) || Asleep(sys, seeds, st.facts, n))
  }

  lemma InitialBalanced<F(!new), E(!new)>(sys: System<F, E>, seeds: set<nat>)
    requires Wired(sys) && seeds <= sys.nodes
    ensures Balanced(sys, seeds, Initial(sys, seeds))
  {
    var st := Initial(sys, seeds);
    forall n | n in sys.nodes && n !in st.worklist ensures Asleep(sys, seeds, st.facts, n) {
    }
  }

  lemma StaysBalanced<F(!new), E(!new)>(sys: System<F, E>, seeds: set<nat>, st: State<F>, x: nat)
    requires Wired(sys) && Balanced(sys, seeds, st) && st.worklist != {} && Visit(sys, st).Ok? && x in sys.nodes
    requires x !in Visit(sys, st).value.worklist
    ensures var next := Visit(sys, st).value.facts;
            Settled(sys, next, x) || Asleep(sys, seeds, next, x)
  {
    var n, next := First(st.worklist), Visit(sys, st).value;
    var now := sys.compute(n, st.facts).value;
    forall s | s in sys.owner && s in sys.wakes && x in sys.wakes[s] ensures next.facts[s] == st.facts[s] {
      assert s in now && now[s] != st.facts[s] ==> x in Woken(sys.wakes, st.facts, now);
    }
    assert AgreeWhereWoken(sys, x, st.facts, next.facts);
    assert sys.compute(x, st.facts) == sys.compute(x, next.facts);
    if x == n {
      assert Settled(sys, next.facts, x);
    } else {
      assert x !in st.worklist;
      assert Settled(sys, st.facts, x) || Asleep(sys, seeds, st.facts, x);
      assert forall s :: s in Owned(sys, x) ==> next.facts[s] == st.facts[s];
    }
  }

  lemma VisitBalanced<F(!new), E(!new)>(sys: System<F, E>, seeds: set<nat>, st: State<F>)
    requires Wired(sys) && Balanced(sys, seeds, st) && st.worklist != {} && Visit(sys, st).Ok?
    ensures Balanced(sys, seeds, Visit(sys, st).value)
  {
    var next := Visit(sys, st).value;
    forall x | x in sys.nodes && x !in next.worklist
      ensures Settled(sys, next.facts, x) || Asleep(sys, seeds, next.facts, x)
    {
      StaysBalanced(sys, seeds, st, x);
    }
  }

  lemma {:induction false} RunBalanced<F(!new), E(!new)>(sys: System<F, E>, seeds: set<nat>, k: nat)
    requires Wired(sys) && seeds <= sys.nodes && RunFor(sys, seeds, k).Ok?
    ensures Balanced(sys, seeds, RunFor(sys, seeds, k).value)
  {
    if k == 0 {
      InitialBalanced(sys, seeds);
    } else {
      RunBalanced(sys, seeds, k - 1);
      if RunFor(sys, seeds, k - 1).value.worklist != {} {
        VisitBalanced(sys, seeds, RunFor(sys, seeds, k - 1).value);
      }
    }
  }

  /** What every visit of a monotone system keeps as well: recomputing a node never lowers its facts. */
  ghost predicate Ascending<F(!new), E(!new)>(sys: System<F, E>, o: Order<F>, st: State<F>) {
    && Leq(sys, o, st.facts, st.facts) && st.worklist <= sys.nodes
    && (forall n {:trigger Rising(sys, o, st.facts, n)} :: n in sys.nodes ==> Rising(sys, o, st.facts, n))
  }

  lemma InitialAscending<F(!new), E(!new)>(sys: System<F, E>, o: Order<F>, seeds: set<nat>)
    requires Lawful(sys, o) && seeds <= sys.nodes
    ensures Ascending(sys, o, Initial(sys, seeds))
  {
    var st := Initial(sys, seeds);
    forall n | n in sys.nodes ensures Rising(sys, o, st.facts, n) {
      assert ResultLeq(o, Owned(sys, n), sys.compute(n, st.facts), sys.compute(n, st.facts));
    }
  }

  /** One visit only raises facts. */
  lemma VisitRaises<F(!new), E(!new)>(sys: System<F, E>, o: Order<F>, st: State<F>)
    requires Lawful(sys, o) && Ascending(sys, o, st) && st.worklist != {} && Visit(sys, st).Ok?
    ensures Leq(sys, o, st.facts, Visit(sys, st).value.facts)
  {
    var n := First(st.worklist);
    assert Rising(sys, o, st.facts, n);
  }

  lemma RisingStays<F(!new), E(!new)>(sys: System<F, E>, o: Order<F>, st: State<F>, x: nat)
    requires Lawful(sys, o) && Ascending(sys, o, st) && st.worklist != {} && Visit(sys, st).Ok? && x in sys.nodes
    ensures Rising(sys, o, Visit(sys, st).value.facts, x)
  {
    var n, next := First(st.worklist), Visit(sys, st).value;
    VisitRaises(sys, o, st);
    assert Rising(sys, o, st.facts, x);
    assert ResultLeq(o, Owned(sys, x), sys.compute(x, st.facts), sys.compute(x, next.facts));
    if sys.compute(x, next.facts).Ok? {
      forall s | s in Owned(sys, x) ensures o.le(next.facts[s], sys.compute(x, next.facts).value[s]) {
        if x == n {
          assert next.facts[s] == sys.compute(x, st.facts).value[s];
        } else {
          assert next.facts[s] == st.facts[s];
        }
      }
    }
  }

  lemma VisitAscends<F(!new), E(!new)>(sys: System<F, E>, o: Order<F>, st: State<F>)
    requires Lawful(sys, o) && Ascending(sys, o, st) && st.worklist != {} && Visit(sys, st).Ok?
    ensures Ascending(sys, o, Visit(sys, st).value)
  {
    var next := Visit(sys, st).value;
    VisitRaises(sys, o, st);
    forall x | x in sys.nodes ensures Rising(sys, o, next.facts, x) {
      RisingStays(sys, o, st, x);
    }
  }

  lemma {:induction false} RunAscending<F(!new), E(!new)>(sys: System<F, E>, o: Order<F>, seeds: set<nat>, k: nat)
    requires Lawful(sys, o) && seeds <= sys.nodes && RunFor(sys, seeds, k).Ok?
    ensures Ascending(sys, o, RunFor(sys, seeds, k).value)
  {
    if k == 0 {
      InitialAscending(sys, o, seeds);
    } else {
      RunAscending(sys, o, seeds, k - 1);
      if RunFor(sys, seeds, k - 1).value.worklist != {} {
        VisitAscends(sys, o, RunFor(sys, seeds, k - 1).value);
      }
    }
  }

  /** `facts` solve the system from `seeds`: every node satisfies its equation, or nothing has reached it. */
  ghost predicate Solves<F(!new), E(!new)>(sys: System<F, E>, seeds: set<nat>, facts: map<Slot, F>) {
    && facts.Keys == sys.owner.Keys
    && forall n {:trigger Settled(sys, facts, n)} {:trigger Asleep(sys, seeds, facts, n)} :: n in sys.nodes ==>
         Settled(sys, facts, n) || Asleep(sys, seeds, facts, n)
  }

  lemma FinishedSolves<F(!new), E(!new)>(sys: System<F, E>, seeds: set<nat>, k: nat)
    requires Wired(sys) && seeds <= sys.nodes && RunFor(sys, seeds, k).Ok? && RunFor(sys, seeds, k).value.worklist == {}
    ensures Solves(sys, seeds, RunFor(sys, seeds, k).value.facts)
    ensures forall n :: n in seeds ==> Settled(sys, RunFor(sys, seeds, k).value.facts, n)
  {
    RunBalanced(sys, seeds, k);
  }

  /** A set of nodes that holds the seeds and everything they wake. */
  ghost predicate ClosedUnder<F, E>(sys: System<F, E>, seeds: set<nat>, c: set<nat>) {
    && seeds <= c <= sys.nodes
    && forall s, x :: s in sys.owner && sys.owner[s] in c && s in sys.wakes && x in sys.wakes[s] ==> x in c
  }

  /** `bound` satisfies every equation of `c`, as an inequality. */
  ghost predicate Bounds<F(!new), E(!new)>(sys: System<F, E>, o: Order<F>, c: set<nat>, bound: map<Slot, F>) {
    && Leq(sys, o, bound, bound)
    && forall n {:trigger sys.compute(n, bound)} :: n in c ==>
         && sys.compute(n, bound).Ok?
         && forall s :: s in Owned(sys, n) ==> s in sys.compute(n, bound).value && o.le(sys.compute(n, bound).value[s], bound[s])
  }

  /** Only nodes of `c` are ever queued, and slots outside it keep their bottom facts. */
  lemma {:induction false} RunConfined<F(!new), E(!new)>(sys: System<F, E>, seeds: set<nat>, c: set<nat>, k: nat)
    requires Wired(sys) && ClosedUnder(sys, seeds, c) && RunFor(sys, seeds, k).Ok?
    ensures var st := RunFor(sys, seeds, k).value;
            && st.worklist <= c
            && forall s :: s in sys.owner && sys.owner[s] !in c ==> s in st.facts && st.facts[s] == sys.bottom
  {
    if k > 0 {
      RunConfined(sys, seeds, c, k - 1);
      RunBalanced(sys, seeds, k - 1);
      var st := RunFor(sys, seeds, k - 1).value;
      if st.worklist != {} {
        var n := First(st.worklist);
        assert sys.compute(n, st.facts).value.Keys == Owned(sys, n);
      }
    }
  }

  /** No bound is ever overtaken, and where one exists no node rejects its facts. */
  lemma VisitBelow<F(!new), E(!new)>(sys: System<F, E>, o: Order<F>, c: set<nat>, bound: map<Slot, F>, st: State<F>)
    requires Lawful(sys, o) && Bounds(sys, o, c, bound) && Leq(sys, o, st.facts, bound) && st.worklist != {} && st.worklist <= c
    requires First(st.worklist) in sys.nodes
    ensures Visit(sys, st).Ok? && Leq(sys, o, Visit(sys, st).value.facts, bound)
  {
    var n := First(st.worklist);
    assert ResultLeq(o, Owned(sys, n), sys.compute(n, st.facts), sys.compute(n, bound));
    var next := Visit(sys, st).value;
    forall s | s in sys.owner ensures o.le(next.facts[s], bound[s]) {
      if s in Owned(sys, n) {
        assert o.le(sys.compute(n, st.facts).value[s], sys.compute(n, bound).value[s]);
      }
    }
  }

  lemma {:induction false} RunBelow<F(!new), E(!new)>(sys: System<F, E>, o: Order<F>, seeds: set<nat>, c: set<nat>,
                                                          bound: map<Slot, F>, k: nat)
    requires Lawful(sys, o) && ClosedUnder(sys, seeds, c) && Bounds(sys, o, c, bound)
    ensures RunFor(sys, seeds, k).Ok? && Leq(sys, o, RunFor(sys, seeds, k).value.facts, bound)
  {
    if k > 0 {
      hide Visit, Bounds;
      RunBelow(sys, o, seeds, c, bound, k - 1);
      RunConfined(sys, seeds, c, k - 1);
      var st := RunFor(sys, seeds, k - 1).value;
      if st.worklist != {} {
        VisitBelow(sys, o, c, bound, st);
      }
    }
  }

  /** A finished solve stays finished, so every limit that lets it finish gives the same facts. */
  lemma {:induction false} FinishedStays<F, E>(sys: System<F, E>, seeds: set<nat>, k: nat, l: nat)
    requires k <= l && RunFor(sys, seeds, k).Ok? && RunFor(sys, seeds, k).value.worklist == {}
    ensures RunFor(sys, seeds, l) == RunFor(sys, seeds, k)
    decreases l
  {
    if k < l {
      FinishedStays(sys, seeds, k, l - 1);
    }
  }

  ghost function Pick<K>(keys: set<K>): K
    requires keys != {}
  {
    var s :| s in keys; s
  }

  /** How far the facts can still rise. */
  ghost function Headroom<K, F>(o: Order<F>, keys: set<K>, m: map<K, F>): nat
    requires keys <= m.Keys
  {
    if keys == {} then 0
    else o.height(m[Pick(keys)]) + Headroom(o, keys - {Pick(keys)}, m)
  }

  lemma {:induction false} HeadroomShrinks<K(!new), F(!new)>(o: Order<F>, bottom: F, keys: set<K>, m: map<K, F>, m': map<K, F>)
    requires IsOrder(o, bottom) && keys <= m.Keys && keys <= m'.Keys
    requires forall s :: s in keys ==> o.le(m[s], m'[s])
    ensures Headroom(o, keys, m') <= Headroom(o, keys, m)
    ensures (exists s :: s in keys && m[s] != m'[s]) ==> Headroom(o, keys, m') < Headroom(o, keys, m)
  {
    if keys != {} {
      var s := Pick(keys);
      HeadroomShrinks(o, bottom, keys - {s}, m, m');
      assert m[s] == m'[s] || o.height(m'[s]) < o.height(m[s]);
    }
  }

  /** A visit lowers the headroom, or leaves it and takes a node off the worklist. */
  lemma VisitProgress<F(!new), E(!new)>(sys: System<F, E>, o: Order<F>, st: State<F>)
    requires Lawful(sys, o) && Ascending(sys, o, st) && st.worklist != {} && Visit(sys, st).Ok?
    ensures var next := Visit(sys, st).value;
            && next.facts.Keys == st.facts.Keys
            && (|| Headroom(o, next.facts.Keys, next.facts) < Headroom(o, st.facts.Keys, st.facts)
                || (Headroom(o, next.facts.Keys, next.facts) == Headroom(o, st.facts.Keys, st.facts)
                    && |next.worklist| < |st.worklist|))
  {
    var next, n := Visit(sys, st).value, First(st.worklist);
    VisitRaises(sys, o, st);
    HeadroomShrinks(o, sys.bottom, st.facts.Keys, st.facts, next.facts);
    if forall s :: s in st.facts ==> st.facts[s] == next.facts[s] {
      assert next.facts == st.facts;
      assert next.worklist == st.worklist - {n};
    }
  }

  /** Within `k` visits the solve has nothing left to do, or has been stopped by an operation. */
  ghost predicate Ends<F, E>(sys: System<F, E>, seeds: set<nat>, k: nat) {
    match RunFor(sys, seeds, k)
    case Ok(st) => st.worklist == {}
    case Err(_) => true
  }

  lemma {:induction false} RejectedStays<F, E>(sys: System<F, E>, seeds: set<nat>, k: nat, l: nat)
    requires k <= l && RunFor(sys, seeds, k).Err?
    ensures RunFor(sys, seeds, l).Err?
    decreases l
  {
    if k < l {
      RejectedStays(sys, seeds, k, l - 1);
    }
  }

  /** While work is left, the end is still ahead. */
  lemma EndAhead<F, E>(sys: System<F, E>, seeds: set<nat>, steps: nat, enough: nat)
    requires Ends(sys, seeds, enough) && RunFor(sys, seeds, steps).Ok? && RunFor(sys, seeds, steps).value.worklist != {}
    ensures steps < enough
  {
    if enough <= steps {
      if RunFor(sys, seeds, enough).Err? {
        RejectedStays(sys, seeds, enough, steps);
      } else {
        FinishedStays(sys, seeds, enough, steps);
      }
    }
  }

  /** Every solve of a monotone system whose facts can rise only so far ends. */
  lemma LawfulEnds<F(!new), E(!new)>(sys: System<F, E>, o: Order<F>, seeds: set<nat>) returns (enough: nat)
    requires Lawful(sys, o) && seeds <= sys.nodes
    ensures Ends(sys, seeds, enough)
  {
    enough := EndsFrom(sys, o, seeds, 0, Initial(sys, seeds));
  }

  lemma {:induction false} EndsFrom<F(!new), E(!new)>(sys: System<F, E>, o: Order<F>, seeds: set<nat>, k: nat, st: State<F>)
    returns (enough: nat)
    requires Lawful(sys, o) && seeds <= sys.nodes && RunFor(sys, seeds, k) == Ok(st)
    ensures Ends(sys, seeds, enough)
    decreases Headroom(o, st.facts.Keys, st.facts), |st.worklist|
  {
    enough := k;
    if st.worklist != {} {
      enough := k + 1;
      assert RunFor(sys, seeds, k + 1) == Visit(sys, st);
      if Visit(sys, st).Ok? {
        RunAscending(sys, o, seeds, k);
        VisitProgress(sys, o, st);
        enough := EndsFrom(sys, o, seeds, k + 1, Visit(sys, st).value);
      }
    }
  }

  /** Facts at a completed fixpoint, and how many visits it took. */
  datatype Solution<F> = Solution(facts: map<Slot, F>, steps: nat)

  /** What a solve reports, told against the visits it makes. */
  ghost predicate SolveOk<F, E>(sys: System<F, E>, seeds: set<nat>, limit: Option<nat>, r: Result<Solution<F>, Stop<E>>) {
    match r
    case Ok(solved) =>
      && RunFor(sys, seeds, solved.steps) == Ok(State(solved.facts, {}))
      && (limit.Some? ==> solved.steps <= limit.value)
      && (solved.steps > 0 ==> RunFor(sys, seeds, solved.steps - 1).Ok? && RunFor(sys, seeds, solved.steps - 1).value.worklist != {})
    case Err(StepLimitExceeded(l, steps, pending)) =>
      && limit == Some(l) && steps == l && RunFor(sys, seeds, l).Ok? && RunFor(sys, seeds, l).value.worklist != {}
      && pending == First(RunFor(sys, seeds, l).value.worklist)
    case Err(Problem(e)) => exists k: nat :: RunFor(sys, seeds, k) == Err(e)
  }

  lemma SolveDone<F, E>(sys: System<F, E>, seeds: set<nat>, limit: Option<nat>, st: State<F>, steps: nat)
    requires RunFor(sys, seeds, steps) == Ok(st) && st.worklist == {} && (limit.Some? ==> steps <= limit.value)
    requires steps > 0 ==> RunFor(sys, seeds, steps - 1).Ok? && RunFor(sys, seeds, steps - 1).value.worklist != {}
    ensures SolveOk(sys, seeds, limit, Ok(Solution(st.facts, steps)))
  {
  }

  lemma SolveStopped<F, E>(sys: System<F, E>, seeds: set<nat>, limit: nat, st: State<F>)
    requires RunFor(sys, seeds, limit) == Ok(st) && st.worklist != {}
    ensures SolveOk(sys, seeds, Some(limit), Err(StepLimitExceeded(limit, limit, First(st.worklist))))
  {
  }

  lemma SolveRejected<F, E>(sys: System<F, E>, seeds: set<nat>, limit: Option<nat>, k: nat, error: E)
    requires RunFor(sys, seeds, k) == Err(error)
    ensures SolveOk(sys, seeds, limit, Err(Problem(error)))
  {
  }

  /** Two completed solves from the same seeds are the same, whatever their limits. */
  lemma SameVisits<F, E>(sys: System<F, E>, seeds: set<nat>, a: Solution<F>, b: Solution<F>)
    requires SolveOk(sys, seeds, None, Ok(a)) && SolveOk(sys, seeds, None, Ok(b))
    ensures a == b
  {
    if a.steps < b.steps {
      FinishedStays(sys, seeds, a.steps, b.steps - 1);
    } else if b.steps < a.steps {
      FinishedStays(sys, seeds, b.steps, a.steps - 1);
    }
  }
}
