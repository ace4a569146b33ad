/** Facts that exist only where execution reaches: the lifting of a problem without a bottom. */
module ReachableFacts {
  import opened Wrappers
  import opened Program
  import opened Trails
  import opened Iteration
  import opened EdgeFixpoint

  datatype ReachableProblem<!F, !E> = ReachableProblem(
    direction: Direction, boundary: nat -> Result<Option<F>, E>, merge: (nat, F, F) -> Result<F, E>,
    transfer: (nat, F) -> Result<F, E>, observesInput: nat -> bool)

  function Wrap<F, E>(r: Result<F, E>): Result<Option<F>, E> {
    match r
    case Err(e) => Err(e)
    case Ok(fact) => Ok(Some(fact))
  }

  function LiftBoundary<F, E>(base: ReachableProblem<F, E>, n: nat): Result<Option<Option<F>>, E> {
    match base.boundary(n)
    case Err(e) => Err(e)
    case Ok(None) => Ok(None)
    case Ok(Some(fact)) => Ok(Some(Some(fact)))
  }

  function LiftMeet<F, E>(base: ReachableProblem<F, E>, n: nat, a: Option<F>, b: Option<F>): Result<Option<F>, E> {
    if a.None? then Ok(b) else if b.None? then Ok(a) else Wrap(base.merge(n, a.value, b.value))
  }

  function LiftNode<F, E>(base: ReachableProblem<F, E>, n: nat, fact: Option<F>): Result<Option<F>, E> {
    if fact.None? then Ok(None) else Wrap(base.transfer(n, fact.value))
  }

  function LiftEdge<F, E>(base: ReachableProblem<F, E>, e: nat, input: Option<F>, output: Option<F>): Result<Option<F>, E> {
    if base.observesInput(e) then Ok(input) else Ok(if base.direction.Forward? then output else input)
  }

  function Lift<F, E>(base: ReachableProblem<F, E>): EdgeProblem<Option<F>, E> {
    EdgeProblem(base.direction, None, n => LiftBoundary(base, n), (n, a, b) => LiftMeet(base, n, a, b),
                (n, a) => LiftNode(base, n, a), (e, a, b) => LiftEdge(base, e, a, b))
  }

  /** Unreached is below every fact. */
  function LiftLeq<F>(o: Order<F>, a: Option<F>, b: Option<F>): bool {
    if a.None? then b.None? || o.le(b.value, b.value) else b.Some? && o.le(a.value, b.value)
  }

  function LiftHeight<F>(o: Order<F>, top: nat, a: Option<F>): nat {
    if a.None? then top + 1 else o.height(a.value)
  }

  function LiftOrder<F>(o: Order<F>, top: nat): Order<Option<F>> {
    Order((a, b) => LiftLeq(o, a, b), a => LiftHeight(o, top, a))
  }

  /** An order, not necessarily with a least fact, of height at most `top`. */
  ghost predicate IsBounded<F(!new)>(o: Order<F>, top: nat) {
    && (forall x, y :: o.le(x, y) ==> o.le(x, x) && o.le(y, y))
    && (forall x, y :: o.le(x, y) && o.le(y, x) ==> x == y)
    && (forall x, y, z :: o.le(x, y) && o.le(y, z) ==> o.le(x, z))
    && (forall x, y :: o.le(x, y) && x != y ==> o.height(y) < o.height(x))
    && (forall x :: o.height(x) <= top)
  }

  /** An order of height at most `top`, a merge above both its arguments, and monotone operations. */
  ghost predicate BaseMonotone<F(!new), E(!new)>(base: ReachableProblem<F, E>, o: Order<F>, top: nat) {
    && IsBounded(o, top)
    && (forall n {:trigger base.boundary(n)} :: base.boundary(n).Ok? && base.boundary(n).value.Some? ==>
          o.le(base.boundary(n).value.value, base.boundary(n).value.value))
    && (forall n, a, b {:trigger base.merge(n, a, b)} :: o.le(a, a) && o.le(b, b) && base.merge(n, a, b).Ok? ==>
          o.le(a, base.merge(n, a, b).value) && o.le(b, base.merge(n, a, b).value))
    && (forall n, a, b, c, d {:trigger base.merge(n, a, b), base.merge(n, c, d)} ::
          o.le(a, c) && o.le(b, d) ==> OutcomeLeq(o, base.merge(n, a, b), base.merge(n, c, d)))
    && (forall n, a, b {:trigger base.transfer(n, a), base.transfer(n, b)} ::
          o.le(a, b) ==> OutcomeLeq(o, base.transfer(n, a), base.transfer(n, b)))
  }

  lemma LiftIsOrder<F(!new)>(o: Order<F>, top: nat)
    requires IsBounded(o, top)
    ensures IsOrder(LiftOrder(o, top), None)
  {
  }

  /** The lifted problem meets the solver's conditions, with unreached as bottom and identity of every merge. */
  lemma LiftMonotone<F(!new), E(!new)>(base: ReachableProblem<F, E>, o: Order<F>, top: nat)
    requires BaseMonotone(base, o, top)
    ensures Monotone(Lift(base), LiftOrder(o, top))
  {
    var prob, lo := Lift(base), LiftOrder(o, top);
    LiftIsOrder(o, top);
    forall n, a, b, c, d | lo.le(a, c) && lo.le(b, d) ensures OutcomeLeq(lo, prob.meet(n, a, b), prob.meet(n, c, d)) {
      LiftMeetMonotone(base, o, top, n, a, b, c, d);
    }
    forall n, a, b | lo.le(a, b) ensures OutcomeLeq(lo, prob.node(n, a), prob.node(n, b)) {
      if a.Some? {
        assert OutcomeLeq(o, base.transfer(n, a.value), base.transfer(n, b.value));
      }
    }
    forall e, a, b, c, d | lo.le(a, c) && lo.le(b, d) ensures OutcomeLeq(lo, prob.edge(e, a, b), prob.edge(e, c, d)) {
    }
  }

  lemma LiftMeetMonotone<F(!new), E(!new)>(base: ReachableProblem<F, E>, o: Order<F>, top: nat, n: nat,
                                           a: Option<F>, b: Option<F>, c: Option<F>, d: Option<F>)
    requires BaseMonotone(base, o, top) && LiftLeq(o, a, c) && LiftLeq(o, b, d)
    ensures OutcomeLeq(LiftOrder(o, top), LiftMeet(base, n, a, b), LiftMeet(base, n, c, d))
  {
    if c.Some? && d.Some? && base.merge(n, c.value, d.value).Ok? {
      var top := base.merge(n, c.value, d.value).value;
      assert o.le(c.value, top) && o.le(d.value, top);
      if a.Some? && b.Some? {
        assert OutcomeLeq(o, base.merge(n, a.value, b.value), base.merge(n, c.value, d.value));
      }
    }
  }

  /** A path in the direction facts flow. */
  ghost predicate IsFlow(p: Cfg, dir: Direction, t: Trail) {
    t.To? ==>
      && IsFlow(p, dir, t.prev)
      && exists e :: e in p.edges && Feeder(p, dir, e) == t.prev.at && Receiver(p, dir, e) == t.at
  }

  /** Some node with an entry fact flows to `n`. */
  ghost predicate Reached<F, E>(p: Cfg, base: ReachableProblem<F, E>, n: BlockId) {
    exists t: Trail :: IsFlow(p, base.direction, t) && t.at == n && HasEntry(base, t.First())
  }

  predicate HasEntry<F, E>(base: ReachableProblem<F, E>, n: BlockId) {
    base.boundary(n).Ok? && base.boundary(n).value.Some?
  }

  lemma ReachedNext<F, E>(p: Cfg, base: ReachableProblem<F, E>, e: EdgeId)
    requires e in p.edges && Reached(p, base, Feeder(p, base.direction, e))
    ensures Reached(p, base, Receiver(p, base.direction, e))
  {
    var t: Trail :| IsFlow(p, base.direction, t) && t.at == Feeder(p, base.direction, e) && HasEntry(base, t.First());
    assert IsFlow(p, base.direction, To(t, Receiver(p, base.direction, e)));
    assert To(t, Receiver(p, base.direction, e)).First() == t.First();
  }

  /** The met fact exists exactly when there is an entry fact or a fact on an upstream edge. */
  lemma {:induction false} MeetExists<F, E>(p: Cfg, base: ReachableProblem<F, E>, n: BlockId, m: map<Slot, Option<F>>, k: nat)
    requires k <= |Upstream(p, base.direction, n)| && MeetUpTo(p, Lift(base), n, m, k).Ok?
    ensures var r := MeetUpTo(p, Lift(base), n, m, k).value;
            r.Some? && r.value.Some? <==>
              || HasEntry(base, n)
              || exists i :: 0 <= i < k && FactOn(Lift(base), m, Upstream(p, base.direction, n)[i]).Some?
  {
    if k > 0 {
      MeetExists(p, base, n, m, k - 1);
      var row := Upstream(p, base.direction, n);
      assert FactOn(Lift(base), m, row[k - 1]).Some? ==>
               exists i :: 0 <= i < k && FactOn(Lift(base), m, row[i]).Some?;
    }
  }

  /** No slot holds a fact unless its node is reached. */
  ghost predicate OnlyReached<F, E>(p: Cfg, base: ReachableProblem<F, E>, m: map<Slot, Option<F>>) {
    forall s {:trigger m[s]} :: s in m && s in Slots(p) && m[s].Some? ==> Reached(p, base, OwnerOf(p, base.direction, s))
  }

  lemma MetReached<F, E>(p: Cfg, base: ReachableProblem<F, E>, n: BlockId, m: map<Slot, Option<F>>)
    requires p.WellFormed() && n in p.blocks && m.Keys == Slots(p) && OnlyReached(p, base, m)
    requires MeetEdges(p, Lift(base), n, m).Ok? && MeetEdges(p, Lift(base), n, m).value.Some?
    ensures Reached(p, base, n)
  {
    var row := Upstream(p, base.direction, n);
    MeetExists(p, base, n, m, |row|);
    if HasEntry(base, n) {
      assert IsFlow(p, base.direction, From(n)) && From(n).First() == n;
    } else {
      var i :| 0 <= i < |row| && FactOn(Lift(base), m, row[i]).Some?;
      assert On(row[i]) in m && m[On(row[i])].Some?;
      ReachedNext(p, base, row[i]);
    }
  }

  /** An unreached node writes no fact. */
  lemma NoneFlows<F, E>(p: Cfg, base: ReachableProblem<F, E>, n: BlockId)
    requires FromFlow(p, Lift(base), n, None).Ok?
    ensures forall s :: s in FromFlow(p, Lift(base), n, None).value ==> FromFlow(p, Lift(base), n, None).value[s].None?
  {
    var row := Downstream(p, base.direction, n);
    EdgesOutAt(Lift(base), row, |row|, None, None);
  }

  lemma VisitReached<F, E>(p: Cfg, base: ReachableProblem<F, E>, st: State<Option<F>>)
    requires p.WellFormed() && st.worklist != {} && st.worklist <= p.blocks.Keys && st.facts.Keys == Slots(p)
    requires OnlyReached(p, base, st.facts) && Visit(EdgeSystem(p, Lift(base)), st).Ok?
    ensures OnlyReached(p, base, Visit(EdgeSystem(p, Lift(base)), st).value.facts)
  {
    var prob, n := Lift(base), First(st.worklist);
    var flowIn := MeetEdges(p, prob, n, st.facts).value;
    FlowKeys(p, prob, n, flowIn);
    var now := FromFlow(p, prob, n, flowIn).value;
    if flowIn.Some? {
      MetReached(p, base, n, st.facts);
    } else {
      NoneFlows(p, base, n);
    }
    forall s | s in st.facts + now && s in Slots(p) && (st.facts + now)[s].Some?
      ensures Reached(p, base, OwnerOf(p, base.direction, s))
    {
      if s in now {
        assert s in Owned(EdgeSystem(p, prob), n);
        assert OwnerOf(p, base.direction, s) == n;
      } else {
        assert st.facts[s].Some?;
      }
    }
  }

  lemma {:induction false} RunReached<F, E>(p: Cfg, base: ReachableProblem<F, E>, seeds: set<nat>, k: nat)
    requires p.WellFormed() && seeds <= p.blocks.Keys && RunFor(EdgeSystem(p, Lift(base)), seeds, k).Ok?
    ensures var st := RunFor(EdgeSystem(p, Lift(base)), seeds, k).value;
            st.facts.Keys == Slots(p) && st.worklist <= p.blocks.Keys && OnlyReached(p, base, st.facts)
  {
    if k > 0 {
      RunReached(p, base, seeds, k - 1);
      var st := RunFor(EdgeSystem(p, Lift(base)), seeds, k - 1).value;
      if st.worklist != {} {
        VisitInside(p, Lift(base), st);
        VisitReached(p, base, st);
      }
    }
  }

  /** Where a fact flows in, facts flow out. */
  lemma FactsFlow<F, E>(p: Cfg, base: ReachableProblem<F, E>, facts: map<Slot, Option<F>>, n: BlockId)
    requires EquationsAt(p, Lift(base), facts, n)
    requires HasEntry(base, n) || exists e :: e in Upstream(p, base.direction, n) && FactOn(Lift(base), facts, e).Some?
    ensures facts[In(n)].Some? && facts[Out(n)].Some?
    ensures forall e :: e in Downstream(p, base.direction, n) ==> On(e) in facts && facts[On(e)].Some?
  {
    var row := Upstream(p, base.direction, n);
    MeetExists(p, base, n, facts, |row|);
    if e :| e in row && FactOn(Lift(base), facts, e).Some? {
      var i :| 0 <= i < |row| && row[i] == e;
    }
    assert MeetEdges(p, Lift(base), n, facts).value.Some?;
  }

  /** Following a flow, every node on the way has facts. */
  lemma {:induction false} FlowHasFacts<F, E>(p: Cfg, base: ReachableProblem<F, E>, facts: map<Slot, Option<F>>, t: Trail)
    requires p.WellFormed() && facts.Keys == Slots(p) && IsFlow(p, base.direction, t) && HasEntry(base, t.First())
    requires t.First() in p.blocks
    requires forall n {:trigger EquationsAt(p, Lift(base), facts, n)} :: n in p.blocks ==> EquationsAt(p, Lift(base), facts, n)
    ensures t.at in p.blocks && facts[In(t.at)].Some? && facts[Out(t.at)].Some?
    ensures forall e :: e in Downstream(p, base.direction, t.at) ==> On(e) in facts && facts[On(e)].Some?
  {
    if t.To? {
      FlowHasFacts(p, base, facts, t.prev);
      var e :| e in p.edges && Feeder(p, base.direction, e) == t.prev.at && Receiver(p, base.direction, e) == t.at;
      assert e in Downstream(p, base.direction, t.prev.at) && e in Upstream(p, base.direction, t.at);
      assert FactOn(Lift(base), facts, e).Some?;
    }
    FactsFlow(p, base, facts, t.at);
  }

  /** After a completed solve of every live node, a node has facts exactly when some node with an entry fact flows to
      it: unreached means unreached. */
  lemma ReachedExactly<F(!new), E(!new)>(p: Cfg, base: ReachableProblem<F, E>, limit: Option<nat>,
                                         solved: Solution<Option<F>>, n: BlockId)
    requires p.WellFormed() && n in p.blocks
    requires forall x :: HasEntry(base, x) ==> x in p.blocks
    requires SolveOk(EdgeSystem(p, Lift(base)), p.blocks.Keys, limit, Ok(solved))
    ensures In(n) in solved.facts && Out(n) in solved.facts
    ensures solved.facts[In(n)].Some? <==> Reached(p, base, n)
    ensures solved.facts[Out(n)].Some? <==> Reached(p, base, n)
  {
    SolvedEquations(p, Lift(base), p.blocks.Keys, limit, solved);
    RunReached(p, base, p.blocks.Keys, solved.steps);
    if Reached(p, base, n) {
      var t: Trail :| IsFlow(p, base.direction, t) && t.at == n && HasEntry(base, t.First());
      FlowHasFacts(p, base, solved.facts, t);
    }
  }

  /** What a solution says where it has facts is at least what another says. */
  ghost predicate BelowWhereReached<F>(o: Order<F>, m: map<Slot, Option<F>>, m': map<Slot, Option<F>>) {
    m.Keys == m'.Keys && forall s :: s in m && m[s].Some? ==> m'[s].Some? && o.le(m[s].value, m'[s].value)
  }

  /** Facts the order of the base problem speaks of, where there are any. */
  ghost predicate ProperWhereReached<F>(o: Order<F>, m: map<Slot, Option<F>>) {
    forall s :: s in m && m[s].Some? ==> o.le(m[s].value, m[s].value)
  }

  /** Lifting a monotone problem of bounded height gives one whose solve ends. */
  lemma ReachableEnds<F(!new), E(!new)>(p: Cfg, base: ReachableProblem<F, E>, o: Order<F>, top: nat, seeds: set<nat>) returns (enough: nat)
    requires p.WellFormed() && BaseMonotone(base, o, top) && seeds <= p.blocks.Keys
    ensures Ends(EdgeSystem(p, Lift(base)), seeds, enough)
  {
    hide BaseMonotone, Monotone, Lawful, Ends;
    LiftMonotone(base, o, top);
    EdgeLawful(p, Lift(base), LiftOrder(o, top));
    enough := LawfulEnds(EdgeSystem(p, Lift(base)), LiftOrder(o, top), seeds);
  }

  /** A completed solve has facts only where every solution has them, and none above those. */
  lemma ReachableLeast<F(!new), E(!new)>(p: Cfg, base: ReachableProblem<F, E>, o: Order<F>, top: nat, seeds: set<nat>,
                                         limit: Option<nat>, solved: Solution<Option<F>>, c: set<nat>, other: map<Slot, Option<F>>)
    requires p.WellFormed() && BaseMonotone(base, o, top) && SolveOk(EdgeSystem(p, Lift(base)), seeds, limit, Ok(solved))
    requires FlowClosed(p, base.direction, seeds, c) && IsSolution(p, Lift(base), c, other) && ProperWhereReached(o, other)
    ensures BelowWhereReached(o, solved.facts, other)
  {
    hide BaseMonotone, Monotone, SolveOk, IsSolution, FlowClosed;
    var lo := LiftOrder(o, top);
    LiftMonotone(base, o, top);
    assert Proper(lo, other);
    SolvedLeast(p, Lift(base), lo, seeds, limit, solved, c, other);
    forall s | s in solved.facts && solved.facts[s].Some? ensures other[s].Some? && o.le(solved.facts[s].value, other[s].value) {
      assert lo.le(solved.facts[s], other[s]);
    }
  }

  /** Solves the lifting of a monotone problem over every live node, without a limit. The facts are the least solution;
      when an operation rejects its facts there is none. */
  method SolveReachable<F(==, !new), E(!new)>(p: Cfg, base: ReachableProblem<F, E>, ghost o: Order<F>, ghost top: nat)
    returns (r: Result<Solution<Option<F>>, Stop<E>>)
    requires p.WellFormed() && BaseMonotone(base, o, top)
    ensures SolveOk(EdgeSystem(p, Lift(base)), p.blocks.Keys, None, r)
    ensures r.Ok? ==>
              && IsSolution(p, Lift(base), p.blocks.Keys, r.value.facts)
              && forall other :: IsSolution(p, Lift(base), p.blocks.Keys, other) && ProperWhereReached(o, other) ==>
                   BelowWhereReached(o, r.value.facts, other)
    ensures r.Err? ==> forall other :: ProperWhereReached(o, other) ==> !IsSolution(p, Lift(base), p.blocks.Keys, other)
  {
    hide BaseMonotone, Monotone, IsSolution, BelowWhereReached;
    LiftMonotone(base, o, top);
    r := Solve(p, Lift(base), p.blocks.Keys, LiftOrder(o, top));
    AllFlow(p, base.direction);
    if r.Ok? {
      SolvedEquations(p, Lift(base), p.blocks.Keys, None, r.value);
      forall other | IsSolution(p, Lift(base), p.blocks.Keys, other) && ProperWhereReached(o, other)
        ensures BelowWhereReached(o, r.value.facts, other)
      {
        ReachableLeast(p, base, o, top, p.blocks.Keys, None, r.value, p.blocks.Keys, other);
      }
    } else {
      NoneReachable(p, base, o, top, r.error);
    }
  }

  lemma AllFlow(p: Cfg, dir: Direction)
    requires p.WellFormed()
    ensures FlowClosed(p, dir, p.blocks.Keys, p.blocks.Keys)
  {
  }

  lemma NoneReachable<F(!new), E(!new)>(p: Cfg, base: ReachableProblem<F, E>, o: Order<F>, top: nat, stop: Stop<E>)
    requires p.WellFormed() && BaseMonotone(base, o, top)
    requires SolveOk<Option<F>, E>(EdgeSystem(p, Lift(base)), p.blocks.Keys, None, Err(stop))
    ensures forall other :: ProperWhereReached(o, other) ==> !IsSolution(p, Lift(base), p.blocks.Keys, other)
  {
    hide BaseMonotone, Monotone, IsSolution, FlowClosed;
    var lo := LiftOrder(o, top);
    LiftMonotone(base, o, top);
    AllFlow(p, base.direction);
    RejectedUnsolvable<Option<F>, E>(p, Lift(base), lo, p.blocks.Keys, None, stop.error, p.blocks.Keys);
    forall other | ProperWhereReached(o, other) ensures !IsSolution(p, Lift(base), p.blocks.Keys, other) {
      assert Proper(lo, other);
    }
  }
}
