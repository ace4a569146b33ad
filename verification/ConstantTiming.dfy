/** Which graphs let the solver reach every block with a fact before it visits it. */
module ConstantTiming {
  import opened Wrappers
  import opened Program
  import opened Trails
  import opened Iteration
  import opened EdgeFixpoint
  import opened Constants
  import opened ConstantPropagation
  import opened StrictPropagation
  import opened EarlyBlocks
  import opened ConstantTermination
  import opened ExactConstants

  /** Visit `k`, when there is one, enters its block with a fact that decides every variable. */
  ghost predicate EntersFull<C>(p: Cfg, dom: Domain<C>, k: nat) {
    var run := RunFor(EdgeSystem(p, ConstProblem(p, dom)), ReachableBlocks(p), k);
    && run.Ok?
    && (run.value.worklist != {} ==>
          var met := MeetEdges(p, ConstProblem(p, dom), First(run.value.worklist), run.value.facts);
          met.Ok? && Full(Mentioned(p), met.value))
  }

  lemma {:induction false} RunPrimed<C(!new)>(p: Cfg, dom: Domain<C>, laws: Laws<C>, reached: set<BlockId>, timely: set<BlockId>,
                                              order: seq<BlockId>, k: nat)
    requires p.WellFormed() && LawfulDomain(dom, laws) && Divided(p, reached, timely, order)
    ensures RunFor(EdgeSystem(p, ConstProblem(p, dom)), reached, k).Ok?
    ensures Primed(p, dom, laws, reached, timely, RunFor(EdgeSystem(p, ConstProblem(p, dom)), reached, k).value)
  {
    hide LawfulDomain, Primed, Visit, Downhill;
    StartsPrimed(p, dom, laws, reached, timely);
    RunKeys(p, dom, reached, k);
    if k > 0 {
      RunPrimed(p, dom, laws, reached, timely, order, k - 1);
      RunKeys(p, dom, reached, k - 1);
      var st := RunFor(EdgeSystem(p, ConstProblem(p, dom)), reached, k - 1).value;
      if st.worklist != {} {
        if First(st.worklist) in timely {
          TimelyVisit(p, dom, laws, reached, timely, order, st);
        } else {
          LateVisit(p, dom, laws, reached, timely, order, st);
        }
      }
    }
  }

  /** On an ordered graph every visit of every program enters its block with a full fact. */
  lemma OrderedOnTime<C(!new)>(p: Cfg, dom: Domain<C>, laws: Laws<C>, k: nat)
    requires p.WellFormed() && Ordered(p) && LawfulDomain(dom, laws)
    ensures EntersFull(p, dom, k)
  {
    hide LawfulDomain, Ordered, EarlyAcyclic, Visit, MeetEdges, Full;
    var reached := ReachableBlocks(p);
    ReachableLive(p);
    OrderedAcyclic(p);
    var timely, order := Divide(p, reached);
    RunPrimed(p, dom, laws, reached, timely, order, k);
    RunKeys(p, dom, reached, k);
    var st := RunFor(EdgeSystem(p, ConstProblem(p, dom)), reached, k).value;
    if st.worklist != {} {
      assert First(st.worklist) in timely;
      NextFull(p, dom, laws, reached, timely, order, st);
    }
  }

  /** The same graph, with other instructions. */
  ghost predicate SameShape(p: Cfg, q: Cfg) {
    && q.entry == p.entry && q.bound == p.bound && q.blocks.Keys == p.blocks.Keys
    && q.edges == p.edges && q.out == p.out && q.inc == p.inc
  }

  lemma {:induction false} ShapeTrails(p: Cfg, q: Cfg, t: Trail)
    requires SameShape(p, q)
    ensures IsTrail(p, t) <==> IsTrail(q, t)
  {
    if t.To? {
      ShapeTrails(p, q, t.prev);
    }
  }

  lemma ShapeReach(p: Cfg, q: Cfg)
    requires SameShape(p, q)
    ensures forall b :: ReachableBlock(p, b) <==> ReachableBlock(q, b)
    ensures p.WellFormed() ==> q.WellFormed()
  {
    forall b ensures ReachableBlock(p, b) <==> ReachableBlock(q, b) {
      if t :| IsTrailTo(p, t, p.entry, b) {
        ShapeTrails(p, q, t);
        assert IsTrailTo(q, t, q.entry, b);
      }
      if t :| IsTrailTo(q, t, q.entry, b) {
        ShapeTrails(p, q, t);
        assert IsTrailTo(p, t, p.entry, b);
      }
    }
  }

  lemma ShapeEarly(p: Cfg, q: Cfg, b: BlockId)
    requires SameShape(p, q)
    ensures Early(p, b) <==> Early(q, b)
  {
    ShapeReach(p, q);
    forall e ensures FromBelow(p, b, e) <==> FromBelow(q, b, e) {
    }
  }

  /** Reads one variable in every block, and writes none. */
  function Reading(p: Cfg): Cfg {
    p.(blocks := map b | b in p.blocks :: [Inst(0, [X], [], false, false, true, NoTransfer)])
  }

  lemma ReadingReads(p: Cfg)
    requires p.WellFormed()
    ensures Mentioned(Reading(p)) == {X} && SameShape(p, Reading(p)) && Reading(p).WellFormed()
  {
    var q := Reading(p);
    ShapeReach(p, q);
    assert X in q.blocks[q.entry][0].uses + q.blocks[q.entry][0].defs;
  }

  lemma ReadingKeeps(p: Cfg, dom: Domain<Value>, n: BlockId, f: Fact<Value>)
    ensures BlockOut(Reading(p), dom, n, f) == f
    ensures forall e, i, o :: EdgeOut(Reading(p), dom, e, i, o) == o
  {
    var q := Reading(p);
    if n in p.blocks {
      var inst := Inst(0, [X], [], false, false, true, NoTransfer);
      assert Insts(q, n) == [inst];
      assert FactAt(dom, [inst], f, 0) == f;
      assert StepFact(dom, inst, f) == f;
    }
  }

  lemma ReadingMonotone(p: Cfg, dom: Domain<Value>, laws: Laws<Value>)
    requires LawfulDomain(dom, laws)
    ensures Monotone(ConstProblem(Reading(p), dom), FactOrder(laws, Mentioned(Reading(p))))
  {
    var q := Reading(p);
    var u := Mentioned(q);
    var prob, o := ConstProblem(q, dom), FactOrder(laws, u);
    FactOrderOk(dom, laws, u);
    UnknownFull(q, dom, laws);
    forall n, a, b, c, d | o.le(a, c) && o.le(b, d) ensures OutcomeLeq(o, prob.meet(n, a, b), prob.meet(n, c, d)) {
      MeetFactsSink(dom, laws, u, a, b, c, d);
    }
    forall n, a, b | o.le(a, b) ensures OutcomeLeq(o, prob.node(n, a), prob.node(n, b)) {
      ReadingKeeps(p, dom, n, a);
      ReadingKeeps(p, dom, n, b);
    }
    forall e, a, b, c, d | o.le(a, c) && o.le(b, d) ensures OutcomeLeq(o, prob.edge(e, a, b), prob.edge(e, c, d)) {
      ReadingKeeps(p, dom, 0, a);
    }
  }

  /** `b` still waits for its first visit, and nothing has reached it. */
  ghost predicate Waiting(q: Cfg, b: BlockId, st: State<Fact<Value>>) {
    && b in st.worklist && st.worklist <= ReachableBlocks(q) && st.facts.Keys == Slots(q)
    && forall e {:trigger st.facts[On(e)]} :: e in q.edges && (q.edges[e].source >= b || !ReachableBlock(q, q.edges[e].source)) ==> st.facts[On(e)] == map[]
  }

  lemma {:induction false} NothingMet(q: Cfg, dom: Domain<Value>, b: BlockId, m: map<Slot, Fact<Value>>, k: nat)
    requires q.WellFormed() && b != q.entry && k <= |Upstream(q, Forward, b)|
    requires forall e :: e in q.edges && q.edges[e].target == b ==> FactOn(ConstProblem(q, dom), m, e) == map[]
    ensures MeetUpTo(q, ConstProblem(q, dom), b, m, k) in {Ok(None), Ok(Some(map[]))}
  {
    if k > 0 {
      NothingMet(q, dom, b, m, k - 1);
      assert MeetFacts(dom, map[], map[]) == map[];
    }
  }

  /** Waiting lasts until the first visit, which finds nothing. */
  lemma WaitingEnters(q: Cfg, dom: Domain<Value>, b: BlockId, st: State<Fact<Value>>)
    requires q.WellFormed() && Early(q, b) && Waiting(q, b, st) && First(st.worklist) == b
    ensures MeetEdges(q, ConstProblem(q, dom), b, st.facts) == Ok(map[])
  {
    forall e | e in q.edges && q.edges[e].target == b ensures FactOn(ConstProblem(q, dom), st.facts, e) == map[] {
      assert !FromBelow(q, b, e);
      assert st.facts[On(e)] == map[];
    }
    NothingMet(q, dom, b, st.facts, |Upstream(q, Forward, b)|);
  }

  lemma WaitingStays(q: Cfg, dom: Domain<Value>, b: BlockId, st: State<Fact<Value>>)
    requires q.WellFormed() && Waiting(q, b, st) && First(st.worklist) != b && Visit(EdgeSystem(q, ConstProblem(q, dom)), st).Ok?
    ensures Waiting(q, b, Visit(EdgeSystem(q, ConstProblem(q, dom)), st).value)
  {
    hide Visit, MeetEdges, FromFlow, ReachableBlock;
    var n := First(st.worklist);
    ReachableLive(q);
    var now := VisitComputes(q, dom, ReachableBlocks(q), st);
    WokenReachable(q, n, st.facts, now);
    var next := Visit(EdgeSystem(q, ConstProblem(q, dom)), st).value;
    forall e | e in q.edges && (q.edges[e].source >= b || !ReachableBlock(q, q.edges[e].source)) ensures next.facts[On(e)] == map[] {
      assert st.facts[On(e)] == map[];
      assert On(e) !in now;
    }
  }

  /** By the time it is no longer queued, an early block has been visited with nothing. */
  lemma {:induction false} EarlyVisit(q: Cfg, dom: Domain<Value>, b: BlockId, k: nat) returns (j: nat)
    requires q.WellFormed() && Early(q, b) && Mentioned(q) != {}
    ensures j <= k
    ensures var run := RunFor(EdgeSystem(q, ConstProblem(q, dom)), ReachableBlocks(q), k);
            !EntersFull(q, dom, j) || (run.Ok? && Waiting(q, b, run.value))
  {
    hide Visit, MeetEdges, Waiting, Early;
    var sys := EdgeSystem(q, ConstProblem(q, dom));
    j := k;
    ReachableLive(q);
    RunKeys(q, dom, ReachableBlocks(q), k);
    if k == 0 {
      WaitingStarts(q, dom, b);
    } else {
      j := EarlyVisit(q, dom, b, k - 1);
      if EntersFull(q, dom, j) {
        j := k - 1;
        var st := RunFor(sys, ReachableBlocks(q), k - 1).value;
        WaitingQueued(q, b, st);
        if First(st.worklist) == b {
          WaitingEnters(q, dom, b, st);
        } else {
          WaitingStays(q, dom, b, st);
        }
      }
    }
  }

  lemma WaitingQueued(q: Cfg, b: BlockId, st: State<Fact<Value>>)
    requires Waiting(q, b, st)
    ensures st.worklist != {}
  {
  }

  lemma WaitingStarts(q: Cfg, dom: Domain<Value>, b: BlockId)
    requires q.WellFormed() && Early(q, b)
    ensures Waiting(q, b, Initial(EdgeSystem(q, ConstProblem(q, dom)), ReachableBlocks(q)))
  {
    ReachableLive(q);
  }

  /** On any other graph some program has a block that is visited before anything has reached it. */
  lemma UnorderedEarly(p: Cfg) returns (k: nat)
    requires p.WellFormed() && !Ordered(p)
    ensures SameShape(p, Reading(p)) && !EntersFull(Reading(p), Exact(), k)
  {
    hide Early, LawfulDomain, Waiting, EntersFull, Monotone;
    var q := Reading(p);
    ReadingReads(p);
    ExactLawful();
    ReadingMonotone(p, Exact(), ExactLaws());
    EdgeLawful(q, ConstProblem(q, Exact()), FactOrder(ExactLaws(), Mentioned(q)));
    ReachableLive(q);
    var enough := LawfulEnds(EdgeSystem(q, ConstProblem(q, Exact())), FactOrder(ExactLaws(), Mentioned(q)), ReachableBlocks(q));
    var b :| Early(p, b);
    ShapeEarly(p, q, b);
    k := EarlyVisit(q, Exact(), b, enough);
    if EntersFull(q, Exact(), k) {
      WaitingQueued(q, b, RunFor(EdgeSystem(q, ConstProblem(q, Exact())), ReachableBlocks(q), enough).value);
    }
  }

  /** A graph is ordered exactly when no program on it has a block the solver visits before it has been entered with a
      fact. */
  lemma OrderedExact(p: Cfg)
    requires p.WellFormed()
    ensures Ordered(p) <==> forall q, k {:trigger SameShape(p, q), EntersFull(q, Exact(), k)} :: SameShape(p, q) ==> EntersFull(q, Exact(), k)
  {
    hide EntersFull, LawfulDomain, SameShape;
    ExactLawful();
    if Ordered(p) {
      forall q, k: nat | SameShape(p, q) ensures EntersFull(q, Exact(), k) {
        ShapeReach(p, q);
        forall b ensures !Early(q, b) {
          ShapeEarly(p, q, b);
        }
        OrderedOnTime(q, Exact(), ExactLaws(), k);
      }
    } else {
      var k := UnorderedEarly(p);
    }
  }
}
