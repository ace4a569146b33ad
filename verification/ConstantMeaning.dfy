/** What a completed solve of constant propagation says, told without its transfer functions: facts replayed through each
    block by what its folds answer, and joined by greatest lower bounds. */
module ConstantMeaning {
  import opened Wrappers
  import opened Program
  import opened EdgeKinds
  import opened Trails
  import opened Iteration
  import opened EdgeFixpoint
  import opened Constants
  import opened ConstantPropagation

  /** The meet is the greatest lower bound, where "below" is saying less. */
  lemma MeetGreatest<C(!new)>(dom: Domain<C>, laws: Laws<C>, a: ConstValue<C>, b: ConstValue<C>, c: ConstValue<C>)
    requires LawfulDomain(dom, laws)
    ensures Sinks(laws, MeetWith(dom, a, b), c) <==> Sinks(laws, a, c) && Sinks(laws, b, c)
  {
    if a.Const? && b.Const? && c.Const? {
      if dom.meet(a.value, b.value).Some? {
        var low := dom.meet(a.value, b.value).value;
        assert laws.weaker(a.value, low) && laws.weaker(b.value, low);
      }
    }
  }

  lemma MeetFactsGreatest<C(!new)>(dom: Domain<C>, laws: Laws<C>, f: Fact<C>, g: Fact<C>, v: Var, c: ConstValue<C>)
    requires LawfulDomain(dom, laws)
    ensures Sinks(laws, Get(MeetFacts(dom, f, g), v), c) <==> Sinks(laws, Get(f, v), c) && Sinks(laws, Get(g, v), c)
  {
    hide LawfulDomain, Sinks;
    MeetGreatest(dom, laws, Get(f, v), Get(g, v), c);
    assert Get(MeetFacts(dom, f, g), v) == MeetWith(dom, Get(f, v), Get(g, v));
  }

  /** What an unwind carries is the greatest lower bound of the facts before the throwing instructions. */
  lemma {:induction false} DepartingGreatest<C(!new)>(dom: Domain<C>, laws: Laws<C>, insts: seq<Inst>, f: Fact<C>, i: nat,
                                                      v: Var, c: ConstValue<C>)
    requires LawfulDomain(dom, laws) && i <= |insts| && Departing(dom, insts, f, i).Some?
    ensures Sinks(laws, Get(Departing(dom, insts, f, i).value, v), c) <==>
              forall k :: 0 <= k < i && insts[k].mayUnwind ==> Sinks(laws, Get(FactAt(dom, insts, f, k), v), c)
  {
    hide LawfulDomain, Sinks, FactAt, MeetFacts;
    var earlier := Departing(dom, insts, f, i - 1);
    if earlier.Some? {
      DepartingGreatest(dom, laws, insts, f, i - 1, v, c);
      MeetFactsGreatest(dom, laws, earlier.value, FactAt(dom, insts, f, i - 1), v, c);
    }
  }

  /** What flows into a block is the greatest lower bound of what its edges carry, and at the entry of nothing known. */
  lemma {:induction false} MetGreatest<C(!new)>(p: Cfg, dom: Domain<C>, laws: Laws<C>, n: BlockId, m: map<Slot, Fact<C>>, k: nat,
                                                v: Var, c: ConstValue<C>)
    requires LawfulDomain(dom, laws) && k <= |Upstream(p, Forward, n)|
    ensures var met := MeetUpTo(p, ConstProblem(p, dom), n, m, k);
            && met.Ok? && (met.value.None? ==> n != p.entry && k == 0)
            && (Sinks(laws, Get(if met.value.Some? then met.value.value else map[], v), c) <==>
                  && (n == p.entry ==> Sinks(laws, Get(Unknown<C>(p), v), c))
                  && forall i :: 0 <= i < k ==> Sinks(laws, Get(FactOn(ConstProblem(p, dom), m, Upstream(p, Forward, n)[i]), v), c))
  {
    hide LawfulDomain, MeetFacts, Unknown;
    if k > 0 {
      MetGreatest(p, dom, laws, n, m, k - 1, v, c);
      var before := MeetUpTo(p, ConstProblem(p, dom), n, m, k - 1);
      var fact := FactOn(ConstProblem(p, dom), m, Upstream(p, Forward, n)[k - 1]);
      if before.value.Some? {
        MeetFactsGreatest(dom, laws, before.value.value, fact, v, c);
      }
    }
  }

  /** What is known on entering `b` is the greatest lower bound of what the edges into it carry; at the entry nothing is
      known of any variable the program mentions. */
  ghost predicate EnterMeets<C(!new)>(p: Cfg, laws: Laws<C>, facts: map<Slot, Fact<C>>, b: BlockId)
    requires In(b) in facts && forall e :: e in p.edges ==> On(e) in facts
  {
    forall v, c ::
      Sinks(laws, Get(facts[In(b)], v), c) <==>
        && (b == p.entry && Mentions(p, v) ==> c == Bottom)
        && forall e :: e in p.edges && p.edges[e].target == b ==> Sinks(laws, Get(facts[On(e)], v), c)
  }

  /** An unwind edge out of a block that throws carries the greatest lower bound of the facts before the throwing
      instructions; any other edge carries what is known at the block's end. */
  ghost predicate EdgeCarries<C(!new)>(p: Cfg, laws: Laws<C>, facts: map<Slot, Fact<C>>, b: BlockId, e: EdgeId,
                                       steps: seq<Fact<C>>)
    requires e in p.edges && On(e) in facts && Out(b) in facts && |steps| == |Insts(p, b)| + 1
  {
    var insts := Insts(p, b);
    if p.edges[e].kind == ExceptionUnwind && exists k :: 0 <= k < |insts| && insts[k].mayUnwind then
      forall v, c :: Sinks(laws, Get(facts[On(e)], v), c) <==>
        forall k :: 0 <= k < |insts| && insts[k].mayUnwind ==> Sinks(laws, Get(steps[k], v), c)
    else facts[On(e)] == facts[Out(b)]
  }

  /** The facts at a block of a completed solve. */
  ghost predicate BlockSolved<C(!new)>(p: Cfg, dom: Domain<C>, laws: Laws<C>, facts: map<Slot, Fact<C>>, b: BlockId,
                                       steps: seq<Fact<C>>)
  {
    && In(b) in facts && Out(b) in facts && (forall e :: e in p.edges ==> On(e) in facts)
    && Replayed(dom, Insts(p, b), steps) && steps[0] == facts[In(b)] && steps[|Insts(p, b)|] == facts[Out(b)]
    && EnterMeets(p, laws, facts, b)
    && forall e :: e in p.edges && p.edges[e].source == b ==> EdgeCarries(p, laws, facts, b, e, steps)
  }

  ghost predicate Mentions(p: Cfg, v: Var) {
    exists b, i :: b in p.blocks && 0 <= i < |p.blocks[b]| && (v in p.blocks[b][i].uses || v in p.blocks[b][i].defs)
  }

  lemma UnknownMeans<C(!new)>(p: Cfg, laws: Laws<C>, v: Var, c: ConstValue<C>)
    ensures Sinks(laws, Get(Unknown<C>(p), v), c) <==> (Mentions(p, v) ==> c == Bottom)
  {
    if Mentions(p, v) {
      var b, i :| b in p.blocks && 0 <= i < |p.blocks[b]| && (v in p.blocks[b][i].uses || v in p.blocks[b][i].defs);
      assert v in p.blocks[b][i].uses + p.blocks[b][i].defs;
    }
  }

  lemma EntrySolved<C(!new)>(p: Cfg, dom: Domain<C>, laws: Laws<C>, facts: map<Slot, Fact<C>>, b: BlockId)
    requires p.WellFormed() && b in p.blocks && LawfulDomain(dom, laws)
    requires facts.Keys == Slots(p) && EquationsAt(p, ConstProblem(p, dom), facts, b)
    ensures EnterMeets(p, laws, facts, b)
  {
    hide LawfulDomain, Sinks, Mentions, Cfg.WellFormed, FactAt, MeetFacts, Unknown, MeetUpTo;
    var row := Upstream(p, Forward, b);
    RowInto(p, dom, facts, b);
    forall v, c
      ensures Sinks(laws, Get(facts[In(b)], v), c) <==>
                && (b == p.entry && Mentions(p, v) ==> c == Bottom)
                && forall e :: e in p.edges && p.edges[e].target == b ==> Sinks(laws, Get(facts[On(e)], v), c)
    {
      MetGreatest(p, dom, laws, b, facts, |row|, v, c);
      UnknownMeans(p, laws, v, c);
    }
  }

  lemma RowInto<C(!new)>(p: Cfg, dom: Domain<C>, facts: map<Slot, Fact<C>>, b: BlockId)
    requires p.WellFormed() && b in p.blocks && facts.Keys == Slots(p)
    ensures forall e :: e in p.edges ==> On(e) in facts
    ensures forall e :: e in p.edges && p.edges[e].target == b ==> e in Upstream(p, Forward, b)
    ensures forall i :: 0 <= i < |Upstream(p, Forward, b)| ==>
              var e := Upstream(p, Forward, b)[i];
              e in p.edges && p.edges[e].target == b && FactOn(ConstProblem(p, dom), facts, e) == facts[On(e)]
  {
  }

  lemma EdgeSolved<C(!new)>(p: Cfg, dom: Domain<C>, laws: Laws<C>, facts: map<Slot, Fact<C>>, b: BlockId, e: EdgeId,
                            steps: seq<Fact<C>>)
    requires p.WellFormed() && b in p.blocks && LawfulDomain(dom, laws) && e in p.edges && p.edges[e].source == b
    requires facts.Keys == Slots(p) && EquationsAt(p, ConstProblem(p, dom), facts, b)
    requires steps == FactsOf(dom, Insts(p, b), facts[In(b)])
    ensures EdgeCarries(p, laws, facts, b, e, steps)
  {
    hide LawfulDomain, Sinks, FactAt, Departing, MeetFacts, MeetUpTo;
    var insts := Insts(p, b);
    assert e in Downstream(p, Forward, b);
    assert facts[On(e)] == EdgeOut(p, dom, e, facts[In(b)], facts[Out(b)]);
    if Departs(p, p.edges[e]) {
      assert Throws(p, b);
      forall v, c ensures Sinks(laws, Get(facts[On(e)], v), c) <==>
                forall k :: 0 <= k < |insts| && insts[k].mayUnwind ==> Sinks(laws, Get(steps[k], v), c)
      {
        DepartingGreatest(dom, laws, insts, facts[In(b)], |insts|, v, c);
      }
    }
  }

  /** At a completed solve every reached block holds what its edges, its folds and its throwing instructions say it
      must: each definition a fold answers for keeps its constant, and no more is forgotten than joining paths demands. */
  lemma SolvedMeans<C(!new)>(p: Cfg, dom: Domain<C>, laws: Laws<C>, reached: set<nat>, limit: Option<nat>,
                             solved: Solution<Fact<C>>, b: BlockId)
    returns (steps: seq<Fact<C>>)
    requires p.WellFormed() && LawfulDomain(dom, laws) && b in reached && reached <= p.blocks.Keys
    requires SolveOk(EdgeSystem(p, ConstProblem(p, dom)), reached, limit, Ok(solved))
    ensures BlockSolved(p, dom, laws, solved.facts, b, steps)
  {
    hide LawfulDomain, FactAt, SolveOk, EnterMeets, EdgeCarries, Replayed, Cfg.WellFormed, MeetUpTo;
    SolvedEquations(p, ConstProblem(p, dom), reached, limit, solved);
    assert EquationsAt(p, ConstProblem(p, dom), solved.facts, b);
    RowInto(p, dom, solved.facts, b);
    steps := FactsOf(dom, Insts(p, b), solved.facts[In(b)]);
    FactsReplayed(dom, Insts(p, b), solved.facts[In(b)]);
    StartsAt(p, dom, solved.facts[In(b)], b);
    EntrySolved(p, dom, laws, solved.facts, b);
    forall e | e in p.edges && p.edges[e].source == b ensures EdgeCarries(p, laws, solved.facts, b, e, steps) {
      EdgeSolved(p, dom, laws, solved.facts, b, e, steps);
    }
  }

  lemma StartsAt<C>(p: Cfg, dom: Domain<C>, f: Fact<C>, b: BlockId)
    ensures var steps := FactsOf(dom, Insts(p, b), f);
            steps[0] == f && steps[|Insts(p, b)|] == BlockOut(p, dom, b, f)
  {
  }

  /** The constant a fold answers for is known at the end of the block, unless a later instruction writes it again. */
  lemma {:induction false} FoldReachesEnd<C(!new)>(dom: Domain<C>, insts: seq<Inst>, steps: seq<Fact<C>>, i: nat, j: nat, d: Var, c: C)
    requires Replayed(dom, insts, steps) && i < j <= |insts| && d in insts[i].defs
    requires dom.fold(insts[i], map v | v in steps[i] && steps[i][v].Const? :: steps[i][v].value) == Some((d, c))
    requires forall k :: i < k < j ==> d !in insts[k].defs
    ensures d in steps[j] && steps[j][d] == Const(c)
    decreases j
  {
    assert Leaves(dom, insts[j - 1], steps[j - 1], steps[j - 1 + 1]);
    if i + 1 < j {
      FoldReachesEnd(dom, insts, steps, i, j - 1, d, c);
    }
  }
}
