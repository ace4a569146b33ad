/** The node solver: one fact flowing into each node and one flowing out of it, brought to a fixpoint by a worklist. */
module NodeFixpoint {
  import opened Wrappers
  import opened Program
  import opened Iteration
  import opened EdgeFixpoint

  datatype NodeProblem<!F, !E> = NodeProblem(
    direction: Direction, bottom: F, boundary: Result<F, E>, meet: (nat, F, F) -> Result<F, E>, transfer: (nat, F) -> Result<F, E>)

  /** The fact flowing out of the `k`-th upstream neighbour of `n`. */
  function FactFrom<F, E>(p: Cfg, prob: NodeProblem<F, E>, n: BlockId, m: map<Slot, F>, k: nat): F
    requires k < |Upstream(p, prob.direction, n)|
  {
    var e := Upstream(p, prob.direction, n)[k];
    if e in p.edges && Out(Feeder(p, prob.direction, e)) in m then m[Out(Feeder(p, prob.direction, e))] else prob.bottom
  }

  /** What the first `k` upstream neighbours give `n`; an entry receives the boundary fact in front of them. */
  function MeetUpTo<F, E>(p: Cfg, prob: NodeProblem<F, E>, entry: Option<nat>, start: F, n: BlockId, m: map<Slot, F>, k: nat):
    Result<Option<F>, E>
    requires k <= |Upstream(p, prob.direction, n)|
  {
    if k == 0 then Ok(if entry == Some(n) then Some(start) else None)
    else
      match MeetUpTo(p, prob, entry, start, n, m, k - 1)
      case Err(e) => Err(e)
      case Ok(None) => Ok(Some(FactFrom(p, prob, n, m, k - 1)))
      case Ok(Some(current)) =>
        match prob.meet(n, current, FactFrom(p, prob, n, m, k - 1))
        case Err(e) => Err(e)
        case Ok(met) => Ok(Some(met))
  }

  /** The fact flowing into `n`; the boundary fact when nothing is upstream. */
  function MeetAll<F, E>(p: Cfg, prob: NodeProblem<F, E>, entry: Option<nat>, start: F, n: BlockId, m: map<Slot, F>): Result<F, E> {
    match MeetUpTo(p, prob, entry, start, n, m, |Upstream(p, prob.direction, n)|)
    case Err(e) => Err(e)
    case Ok(None) => Ok(start)
    case Ok(Some(met)) => Ok(met)
  }

  /** Everything one visit of `n` computes. `In` is where facts flow in, whichever way the analysis runs. */
  function ComputeNode<F, E>(p: Cfg, prob: NodeProblem<F, E>, entry: Option<nat>, start: F, n: BlockId, m: map<Slot, F>):
    Result<map<Slot, F>, E>
  {
    match MeetAll(p, prob, entry, start, n, m)
    case Err(e) => Err(e)
    case Ok(met) =>
      match prob.transfer(n, met)
      case Err(e) => Err(e)
      case Ok(out) => Ok(map[In(n) := met, Out(n) := out])
  }

  function NodeSlots(p: Cfg): set<Slot> {
    (set b | b in p.blocks :: In(b)) + (set b | b in p.blocks :: Out(b))
  }

  function SlotNode(s: Slot): nat { match s case In(n) => n case Out(n) => n case On(e) => e }

  /** The downstream neighbours of `n`. */
  function Neighbours(p: Cfg, dir: Direction, n: BlockId): set<nat> {
    set e | e in Downstream(p, dir, n) && e in p.edges :: Receiver(p, dir, e)
  }

  function NodeWakes(p: Cfg, dir: Direction): map<Slot, set<nat>> {
    map b | b in p.blocks :: Out(b) := Neighbours(p, dir, b)
  }

  function NodeSystem<F, E>(p: Cfg, prob: NodeProblem<F, E>, entry: Option<nat>, start: F): System<F, E> {
    System(p.blocks.Keys, map s | s in NodeSlots(p) :: SlotNode(s), NodeWakes(p, prob.direction), prob.bottom,
           (n, m) => ComputeNode(p, prob, entry, start, n, m))
  }

  ghost predicate NodeMonotone<F(!new), E(!new)>(prob: NodeProblem<F, E>, o: Order<F>) {
    && IsOrder(o, prob.bottom)
    && (prob.boundary.Ok? ==> o.le(prob.boundary.value, prob.boundary.value))
    && (forall n, a, b, c, d {:trigger prob.meet(n, a, b), prob.meet(n, c, d)} ::
          o.le(a, c) && o.le(b, d) ==> OutcomeLeq(o, prob.meet(n, a, b), prob.meet(n, c, d)))
    && (forall n, a, b {:trigger prob.transfer(n, a), prob.transfer(n, b)} ::
          o.le(a, b) ==> OutcomeLeq(o, prob.transfer(n, a), prob.transfer(n, b)))
  }

  lemma {:induction false} MeetMonotone<F(!new), E(!new)>(p: Cfg, prob: NodeProblem<F, E>, o: Order<F>, entry: Option<nat>,
                                                          start: F, n: BlockId, m: map<Slot, F>, m': map<Slot, F>, k: nat)
    requires NodeMonotone(prob, o) && o.le(start, start) && k <= |Upstream(p, prob.direction, n)|
    requires m.Keys == m'.Keys && forall s :: s in m ==> o.le(m[s], m'[s])
    ensures OptionLeq(o, MeetUpTo(p, prob, entry, start, n, m, k), MeetUpTo(p, prob, entry, start, n, m', k))
  {
    if k > 0 {
      MeetMonotone(p, prob, o, entry, start, n, m, m', k - 1);
      assert o.le(FactFrom(p, prob, n, m, k - 1), FactFrom(p, prob, n, m', k - 1));
    }
  }

  lemma {:induction false} MeetLocal<F(!new), E(!new)>(p: Cfg, prob: NodeProblem<F, E>, entry: Option<nat>, start: F,
                                                       n: BlockId, m: map<Slot, F>, m': map<Slot, F>, k: nat)
    requires k <= |Upstream(p, prob.direction, n)|
    requires forall i :: 0 <= i < |Upstream(p, prob.direction, n)| ==> FactFrom(p, prob, n, m, i) == FactFrom(p, prob, n, m', i)
    ensures MeetUpTo(p, prob, entry, start, n, m, k) == MeetUpTo(p, prob, entry, start, n, m', k)
  {
    if k > 0 {
      MeetLocal(p, prob, entry, start, n, m, m', k - 1);
    }
  }

  lemma NodeOwned<F, E>(p: Cfg, prob: NodeProblem<F, E>, entry: Option<nat>, start: F, n: BlockId)
    requires n in p.blocks
    ensures Owned(NodeSystem(p, prob, entry, start), n) == {In(n), Out(n)}
  {
  }

  lemma FactLocal<F(!new), E(!new)>(p: Cfg, prob: NodeProblem<F, E>, entry: Option<nat>, start: F, n: BlockId,
                                    m: map<Slot, F>, m': map<Slot, F>, i: nat)
    requires p.WellFormed() && n in p.blocks && AgreeWhereWoken(NodeSystem(p, prob, entry, start), n, m, m')
    requires i < |Upstream(p, prob.direction, n)|
    ensures FactFrom(p, prob, n, m, i) == FactFrom(p, prob, n, m', i)
  {
    hide Upstream, Cfg.WellFormed;
    FeederWakes(p, prob, entry, start, n, i);
  }

  lemma ComputeLocal<F(!new), E(!new)>(p: Cfg, prob: NodeProblem<F, E>, entry: Option<nat>, start: F, n: BlockId,
                                       m: map<Slot, F>, m': map<Slot, F>)
    requires p.WellFormed() && n in p.blocks && AgreeWhereWoken(NodeSystem(p, prob, entry, start), n, m, m')
    ensures ComputeNode(p, prob, entry, start, n, m) == ComputeNode(p, prob, entry, start, n, m')
  {
    var row := Upstream(p, prob.direction, n);
    hide FactFrom, MeetUpTo, NodeSystem;
    forall i | 0 <= i < |row| ensures FactFrom(p, prob, n, m, i) == FactFrom(p, prob, n, m', i) {
      FactLocal(p, prob, entry, start, n, m, m', i);
    }
    MeetLocal(p, prob, entry, start, n, m, m', |row|);
  }

  lemma ComputeMonotone<F(!new), E(!new)>(p: Cfg, prob: NodeProblem<F, E>, o: Order<F>, entry: Option<nat>, start: F,
                                          n: BlockId, m: map<Slot, F>, m': map<Slot, F>)
    requires NodeMonotone(prob, o) && o.le(start, start) && m.Keys == m'.Keys && forall s :: s in m ==> o.le(m[s], m'[s])
    ensures ResultLeq(o, {In(n), Out(n)}, ComputeNode(p, prob, entry, start, n, m), ComputeNode(p, prob, entry, start, n, m'))
  {
    MeetMonotone(p, prob, o, entry, start, n, m, m', |Upstream(p, prob.direction, n)|);
    if MeetAll(p, prob, entry, start, n, m').Ok? {
      var (x, y) := (MeetAll(p, prob, entry, start, n, m).value, MeetAll(p, prob, entry, start, n, m').value);
      assert OutcomeLeq(o, prob.transfer(n, x), prob.transfer(n, y));
    }
  }

  lemma NodeWired<F(!new), E(!new)>(p: Cfg, prob: NodeProblem<F, E>, entry: Option<nat>, start: F)
    requires p.WellFormed()
    ensures Wired(NodeSystem(p, prob, entry, start))
  {
    var sys := NodeSystem(p, prob, entry, start);
    forall n, m: map<Slot, F> | n in sys.nodes && m.Keys == sys.owner.Keys && sys.compute(n, m).Ok?
      ensures sys.compute(n, m).value.Keys == Owned(sys, n)
    {
      NodeOwned(p, prob, entry, start, n);
    }
    forall n, m: map<Slot, F>, m': map<Slot, F> | n in sys.nodes && AgreeWhereWoken(sys, n, m, m')
      ensures sys.compute(n, m) == sys.compute(n, m')
    {
      ComputeLocal(p, prob, entry, start, n, m, m');
    }
  }

  /** A monotone node problem is a lawful system. */
  lemma NodeLawful<F(!new), E(!new)>(p: Cfg, prob: NodeProblem<F, E>, o: Order<F>, entry: Option<nat>, start: F)
    requires p.WellFormed() && NodeMonotone(prob, o) && prob.boundary == Ok(start)
    ensures Lawful(NodeSystem(p, prob, entry, start), o)
  {
    var sys := NodeSystem(p, prob, entry, start);
    NodeWired(p, prob, entry, start);
    forall n, m: map<Slot, F>, m': map<Slot, F> | n in sys.nodes && Leq(sys, o, m, m')
      ensures ResultLeq(o, Owned(sys, n), sys.compute(n, m), sys.compute(n, m'))
    {
      NodeOwned(p, prob, entry, start, n);
      ComputeMonotone(p, prob, o, entry, start, n, m, m');
    }
  }

  /** The meet over the upstream neighbours, in adjacency order. */
  method MeetNeighbours<F, E>(p: Cfg, prob: NodeProblem<F, E>, entry: Option<nat>, start: F, n: BlockId, facts: map<Slot, F>)
    returns (r: Result<F, E>)
    requires p.WellFormed() && n in p.blocks && facts.Keys == NodeSlots(p)
    ensures r == MeetAll(p, prob, entry, start, n, facts)
  {
    var row := Upstream(p, prob.direction, n);
    var met: Option<F> := if entry == Some(n) then Some(start) else None;
    for i := 0 to |row|
      invariant MeetUpTo(p, prob, entry, start, n, facts, i) == Ok(met)
    {
      var fact := facts[Out(Feeder(p, prob.direction, row[i]))];
      assert fact == FactFrom(p, prob, n, facts, i);
      if met.None? {
        met := Some(fact);
      } else {
        var next := prob.meet(n, met.value, fact);
        if next.Err? {
          MeetFails(p, prob, entry, start, n, facts, i + 1, |row|);
          return Err(next.error);
        }
        met := Some(next.value);
      }
    }
    r := Ok(if met.Some? then met.value else start);
  }

  lemma {:induction false} MeetFails<F, E>(p: Cfg, prob: NodeProblem<F, E>, entry: Option<nat>, start: F, n: BlockId,
                                           m: map<Slot, F>, i: nat, k: nat)
    requires i <= k <= |Upstream(p, prob.direction, n)| && MeetUpTo(p, prob, entry, start, n, m, i).Err?
    ensures MeetUpTo(p, prob, entry, start, n, m, k) == MeetUpTo(p, prob, entry, start, n, m, i)
  {
    if i < k {
      MeetFails(p, prob, entry, start, n, m, i, k - 1);
    }
  }

  lemma WokenByOutput<F>(p: Cfg, dir: Direction, n: BlockId, facts: map<Slot, F>, met: F, out: F)
    requires n in p.blocks && facts.Keys == NodeSlots(p)
    ensures Woken(NodeWakes(p, dir), facts, map[In(n) := met, Out(n) := out]) ==
            if out != facts[Out(n)] then Neighbours(p, dir, n) else {}
  {
    var now := map[In(n) := met, Out(n) := out];
    if out != facts[Out(n)] {
      assert now[Out(n)] != facts[Out(n)];
      assert forall x :: x in Neighbours(p, dir, n) ==> x in NodeWakes(p, dir)[Out(n)];
    }
  }

  lemma VisitIs<F, E>(p: Cfg, prob: NodeProblem<F, E>, entry: Option<nat>, start: F, st: State<F>)
    requires st.worklist != {}
    ensures Visit(NodeSystem(p, prob, entry, start), st) ==
            var n := First(st.worklist);
            match ComputeNode(p, prob, entry, start, n, st.facts)
            case Err(e) => Err(e)
            case Ok(now) =>
              Ok(State(st.facts + now, st.worklist - {n} + Woken(NodeWakes(p, prob.direction), st.facts, now)))
  {
  }

  /** The node solver. `entry` receives the boundary fact even when something flows back to it. A solve that ends
      within some number of visits needs no limit. */
  method TrySolve<F(==), E>(p: Cfg, prob: NodeProblem<F, E>, seeds: set<nat>, entry: Option<nat>, limit: Option<nat>,
                            ghost enough: nat)
    returns (r: Result<Solution<F>, Stop<E>>)
    requires p.WellFormed() && seeds <= p.blocks.Keys
    requires limit.None? && prob.boundary.Ok? ==> Ends(NodeSystem(p, prob, entry, prob.boundary.value), seeds, enough)
    ensures match prob.boundary
            case Err(e) => r == Err(Problem(e))
            case Ok(start) => SolveOk(NodeSystem(p, prob, entry, start), seeds, limit, r)
  {
    if prob.boundary.Err? {
      return Err(Problem(prob.boundary.error));
    }
    var start := prob.boundary.value;
    var st := State(map s | s in NodeSlots(p) :: prob.bottom, seeds);
    var steps: nat := 0;
    ghost var sys := NodeSystem(p, prob, entry, start);
    assert st.facts == Initial(sys, seeds).facts;
    while st.worklist != {}
      invariant RunFor(sys, seeds, steps) == Ok(st)
      invariant st.facts.Keys == NodeSlots(p) && st.worklist <= p.blocks.Keys
      invariant limit.Some? ==> steps <= limit.value
      invariant steps > 0 ==> RunFor(sys, seeds, steps - 1).Ok? && RunFor(sys, seeds, steps - 1).value.worklist != {}
      decreases (if limit.Some? then limit.value else enough) - steps
    {
      var n := First(st.worklist);
      if limit.Some? && steps >= limit.value {
        SolveStopped(sys, seeds, limit.value, st);
        return Err(StepLimitExceeded(limit.value, steps, n));
      }
      if limit.None? {
        EndAhead(sys, seeds, steps, enough);
      }
      var next := VisitNode(p, prob, entry, start, st.facts, st.worklist - {n}, n);
      VisitIs(p, prob, entry, start, st);
      assert RunFor(sys, seeds, steps + 1) == next;
      if next.Err? {
        SolveRejected(sys, seeds, limit, steps + 1, next.error);
        return Err(Problem(next.error));
      }
      ghost var before := steps;
      st, steps := next.value, steps + 1;
      assert RunFor(sys, seeds, before + 1) == Ok(st);
    }
    SolveDone(sys, seeds, limit, st, steps);
    r := Ok(Solution(st.facts, steps));
  }

  /** A monotone problem whose facts can rise only so far is solved without a limit. */
  method Solve<F(==, !new), E(!new)>(p: Cfg, prob: NodeProblem<F, E>, seeds: set<nat>, entry: Option<nat>, ghost o: Order<F>)
    returns (r: Result<Solution<F>, Stop<E>>)
    requires p.WellFormed() && seeds <= p.blocks.Keys && NodeMonotone(prob, o)
    ensures match prob.boundary
            case Err(e) => r == Err(Problem(e))
            case Ok(start) => SolveOk(NodeSystem(p, prob, entry, start), seeds, None, r)
  {
    ghost var enough: nat := 0;
    if prob.boundary.Ok? {
      NodeLawful(p, prob, o, entry, prob.boundary.value);
      enough := LawfulEnds(NodeSystem(p, prob, entry, prob.boundary.value), o, seeds);
    }
    r := TrySolve(p, prob, seeds, entry, None, enough);
  }

  /** One visit: the input always, the output and the neighbours only when it changes. */
  method VisitNode<F(==), E>(p: Cfg, prob: NodeProblem<F, E>, entry: Option<nat>, start: F, facts: map<Slot, F>,
                             worklist: set<nat>, n: BlockId)
    returns (r: Result<State<F>, E>)
    requires p.WellFormed() && n in p.blocks && facts.Keys == NodeSlots(p) && worklist <= p.blocks.Keys
    ensures r == match ComputeNode(p, prob, entry, start, n, facts)
                 case Err(e) => Err(e)
                 case Ok(now) => Ok(State(facts + now, worklist + Woken(NodeWakes(p, prob.direction), facts, now)))
    ensures r.Ok? ==> r.value.facts.Keys == NodeSlots(p) && r.value.worklist <= p.blocks.Keys
  {
    var met := MeetNeighbours(p, prob, entry, start, n, facts);
    if met.Err? {
      return Err(met.error);
    }
    var out := prob.transfer(n, met.value);
    if out.Err? {
      return Err(out.error);
    }
    NodeResult(p, prob.direction, n, facts, met.value, out.value, worklist);
    r := Ok(ApplyNode(p, prob.direction, n, facts, met.value, out.value, worklist));
  }

  /** The input is stored always; the output is stored and the neighbours queued only when it changes. */
  function ApplyNode<F(==)>(p: Cfg, dir: Direction, n: BlockId, facts: map<Slot, F>, met: F, out: F, worklist: set<nat>): State<F>
    requires Out(n) in facts
  {
    var now := facts[In(n) := met];
    if out == facts[Out(n)] then State(now, worklist)
    else State(now[Out(n) := out], worklist + Neighbours(p, dir, n))
  }

  lemma NodeResult<F>(p: Cfg, dir: Direction, n: BlockId, facts: map<Slot, F>, met: F, out: F, worklist: set<nat>)
    requires p.WellFormed() && n in p.blocks && facts.Keys == NodeSlots(p) && worklist <= p.blocks.Keys
    ensures var now := map[In(n) := met, Out(n) := out];
            var st := ApplyNode(p, dir, n, facts, met, out, worklist);
            && st == State(facts + now, worklist + Woken(NodeWakes(p, dir), facts, now))
            && st.facts.Keys == NodeSlots(p) && st.worklist <= p.blocks.Keys
  {
    hide NodeWakes, Woken;
    var now := map[In(n) := met, Out(n) := out];
    WokenByOutput(p, dir, n, facts, met, out);
    assert facts + now == facts[In(n) := met][Out(n) := out];
    if out == facts[Out(n)] {
      assert facts + now == facts[In(n) := met];
    }
  }

  /** The equations of node `n`. */
  ghost predicate EquationsAt<F, E>(p: Cfg, prob: NodeProblem<F, E>, entry: Option<nat>, start: F, facts: map<Slot, F>, n: BlockId) {
    && In(n) in facts && Out(n) in facts
    && MeetAll(p, prob, entry, start, n, facts) == Ok(facts[In(n)]) && prob.transfer(n, facts[In(n)]) == Ok(facts[Out(n)])
  }

  lemma SettledMeansEquations<F(!new), E(!new)>(p: Cfg, prob: NodeProblem<F, E>, entry: Option<nat>, start: F,
                                                facts: map<Slot, F>, n: BlockId)
    requires n in p.blocks && facts.Keys == NodeSlots(p)
    ensures Settled(NodeSystem(p, prob, entry, start), facts, n) <==> EquationsAt(p, prob, entry, start, facts, n)
  {
    var sys := NodeSystem(p, prob, entry, start);
    NodeOwned(p, prob, entry, start, n);
    assert sys.compute(n, facts) == ComputeNode(p, prob, entry, start, n, facts);
    assert In(n) in Owned(sys, n) && Out(n) in Owned(sys, n);
  }

  ghost predicate IsSolution<F, E>(p: Cfg, prob: NodeProblem<F, E>, entry: Option<nat>, start: F, c: set<nat>, facts: map<Slot, F>) {
    && facts.Keys == NodeSlots(p)
    && forall n {:trigger EquationsAt(p, prob, entry, start, facts, n)} :: n in c ==> EquationsAt(p, prob, entry, start, facts, n)
  }

  /** At a completed fixpoint, monotone or not, every seed satisfies its equations; any other node satisfies them too, or nothing has
      reached it and its facts and its neighbours' are bottom. */
  lemma SolvedEquations<F(!new), E(!new)>(p: Cfg, prob: NodeProblem<F, E>, entry: Option<nat>, start: F,
                                          seeds: set<nat>, limit: Option<nat>, solved: Solution<F>)
    requires p.WellFormed() && seeds <= p.blocks.Keys
    requires SolveOk(NodeSystem(p, prob, entry, start), seeds, limit, Ok(solved))
    ensures IsSolution(p, prob, entry, start, seeds, solved.facts)
    ensures forall n :: n in p.blocks ==>
              || EquationsAt(p, prob, entry, start, solved.facts, n)
              || (solved.facts[In(n)] == solved.facts[Out(n)] == prob.bottom
                  && forall k :: 0 <= k < |Upstream(p, prob.direction, n)| ==> FactFrom(p, prob, n, solved.facts, k) == prob.bottom)
  {
    var sys := NodeSystem(p, prob, entry, start);
    NodeWired(p, prob, entry, start);
    FinishedSolves(sys, seeds, solved.steps);
    forall n | n in seeds ensures EquationsAt(p, prob, entry, start, solved.facts, n) {
      SettledMeansEquations(p, prob, entry, start, solved.facts, n);
    }
    forall n | n in p.blocks && !EquationsAt(p, prob, entry, start, solved.facts, n)
      ensures solved.facts[In(n)] == solved.facts[Out(n)] == prob.bottom
      ensures forall k :: 0 <= k < |Upstream(p, prob.direction, n)| ==> FactFrom(p, prob, n, solved.facts, k) == prob.bottom
    {
      SettledMeansEquations(p, prob, entry, start, solved.facts, n);
      AsleepUntouched(p, prob, entry, start, seeds, solved.facts, n);
    }
  }

  lemma AsleepUntouched<F(!new), E(!new)>(p: Cfg, prob: NodeProblem<F, E>, entry: Option<nat>, start: F, seeds: set<nat>,
                                          facts: map<Slot, F>, n: BlockId)
    requires p.WellFormed() && n in p.blocks && facts.Keys == NodeSlots(p)
    requires Asleep(NodeSystem(p, prob, entry, start), seeds, facts, n)
    ensures facts[In(n)] == facts[Out(n)] == prob.bottom
    ensures forall k :: 0 <= k < |Upstream(p, prob.direction, n)| ==> FactFrom(p, prob, n, facts, k) == prob.bottom
  {
    var sys, row := NodeSystem(p, prob, entry, start), Upstream(p, prob.direction, n);
    assert In(n) in Owned(sys, n) && Out(n) in Owned(sys, n);
    forall k | 0 <= k < |row| ensures FactFrom(p, prob, n, facts, k) == prob.bottom {
      FeederWakes(p, prob, entry, start, n, k);
    }
  }

  /** A node is woken by whoever it meets. */
  lemma FeederWakes<F(!new), E(!new)>(p: Cfg, prob: NodeProblem<F, E>, entry: Option<nat>, start: F, n: BlockId, k: nat)
    requires p.WellFormed() && n in p.blocks && k < |Upstream(p, prob.direction, n)|
    ensures Upstream(p, prob.direction, n)[k] in p.edges
    ensures var from, sys := Feeder(p, prob.direction, Upstream(p, prob.direction, n)[k]), NodeSystem(p, prob, entry, start);
            from in p.blocks && Out(from) in sys.wakes && n in sys.wakes[Out(from)]
  {
    var row := Upstream(p, prob.direction, n);
    assert row[k] in Downstream(p, prob.direction, Feeder(p, prob.direction, row[k]));
  }

  lemma SolutionBounds<F(!new), E(!new)>(p: Cfg, prob: NodeProblem<F, E>, o: Order<F>, entry: Option<nat>, start: F,
                                         seeds: set<nat>, c: set<nat>, bound: map<Slot, F>)
    requires p.WellFormed() && NodeMonotone(prob, o) && FlowClosed(p, prob.direction, seeds, c)
    requires IsSolution(p, prob, entry, start, c, bound) && Proper(o, bound)
    ensures ClosedUnder(NodeSystem(p, prob, entry, start), seeds, c)
    ensures Bounds(NodeSystem(p, prob, entry, start), o, c, bound)
  {
    var sys := NodeSystem(p, prob, entry, start);
    assert Leq(sys, o, bound, bound);
    forall n | n in c
      ensures sys.compute(n, bound).Ok?
      ensures forall s :: s in Owned(sys, n) ==> s in sys.compute(n, bound).value && o.le(sys.compute(n, bound).value[s], bound[s])
    {
      SettledMeansEquations(p, prob, entry, start, bound, n);
      assert Settled(sys, bound, n);
    }
    forall s, x | s in sys.owner && sys.owner[s] in c && s in sys.wakes && x in sys.wakes[s] ensures x in c {
      var e :| e in Downstream(p, prob.direction, SlotNode(s)) && e in p.edges && Receiver(p, prob.direction, e) == x;
      assert Feeder(p, prob.direction, e) == SlotNode(s);
    }
  }

  /** The node solver's facts are the least: below every solution on any set of nodes the seeds flow within. When an
      operation rejects its facts there is no such solution. */
  lemma SolvedLeast<F(!new), E(!new)>(p: Cfg, prob: NodeProblem<F, E>, o: Order<F>, entry: Option<nat>, start: F,
                                      seeds: set<nat>, limit: Option<nat>, r: Result<Solution<F>, Stop<E>>, c: set<nat>,
                                      other: map<Slot, F>)
    requires p.WellFormed() && NodeMonotone(prob, o) && prob.boundary == Ok(start) && Proper(o, other)
    requires SolveOk(NodeSystem(p, prob, entry, start), seeds, limit, r)
    requires FlowClosed(p, prob.direction, seeds, c) && IsSolution(p, prob, entry, start, c, other)
    ensures match r
            case Ok(solved) => solved.facts.Keys == other.Keys && forall s :: s in other ==> o.le(solved.facts[s], other[s])
            case Err(stop) => stop.StepLimitExceeded?
  {
    var sys := NodeSystem(p, prob, entry, start);
    NodeLawful(p, prob, o, entry, start);
    SolutionBounds(p, prob, o, entry, start, seeds, c, other);
    match r
    case Ok(solved) => RunBelow(sys, o, seeds, c, other, solved.steps);
    case Err(StepLimitExceeded(_, _, _)) =>
    case Err(Problem(e)) =>
      var k: nat :| RunFor(sys, seeds, k) == Err(e);
      RunBelow(sys, o, seeds, c, other, k);
  }

  /** Limits that let a solve finish do not change it: the same facts after the same number of visits. */
  lemma LimitsAgree<F, E>(p: Cfg, prob: NodeProblem<F, E>, entry: Option<nat>, start: F, seeds: set<nat>, limit: Option<nat>,
                          solved: Solution<F>, limit': Option<nat>, solved': Solution<F>)
    requires SolveOk(NodeSystem(p, prob, entry, start), seeds, limit, Ok(solved))
    requires SolveOk(NodeSystem(p, prob, entry, start), seeds, limit', Ok(solved'))
    ensures solved == solved'
  {
    SameVisits(NodeSystem(p, prob, entry, start), seeds, solved, solved');
  }
}
