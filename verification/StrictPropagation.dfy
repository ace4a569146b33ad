/** The solve without its one lapse. Its transfer is not monotone at Top: a fold that needs an operand answers nothing both for an
    operand nothing has reached and for an overdefined one. */
module StrictPropagation {
  import opened Wrappers
  import opened Program
  import opened Trails
  import opened Reachability
  import opened Iteration
  import opened EdgeFixpoint
  import opened Constants
  import opened ConstantPropagation

  function StrictEdge<C(==)>(p: Cfg, dom: Domain<C>, e: EdgeId, i: Fact<C>, o: Fact<C>): Fact<C> {
    if e in p.edges && Departs(p, p.edges[e]) && i == map[] then map[] else EdgeOut(p, dom, e, i, o)
  }

  /** The same problem with transfers that pass over what nothing has reached. */
  function StrictProblem<C(==)>(p: Cfg, dom: Domain<C>): EdgeProblem<Fact<C>, ()> {
    EdgeProblem(Forward, map[], n => Boundary(p, n), (n, a, b) => Ok(MeetFacts(dom, a, b)),
                (n, f) => Ok(if f == map[] then map[] else BlockOut(p, dom, n, f)),
                (e, i, o) => Ok(StrictEdge(p, dom, e, i, o)))
  }

  lemma StrictNodeSinks<C(!new)>(p: Cfg, dom: Domain<C>, laws: Laws<C>, n: BlockId, f: Fact<C>, g: Fact<C>)
    requires LawfulDomain(dom, laws) && FactLeq(laws, Mentioned(p), f, g)
    ensures var u, prob := Mentioned(p), StrictProblem(p, dom);
            FactLeq(laws, u, prob.node(n, f).value, prob.node(n, g).value)
  {
    DefsMentioned(p, n);
    if f != map[] {
      FactAtSinks(dom, laws, Mentioned(p), Insts(p, n), f, g, |Insts(p, n)|);
    } else if g != map[] {
      FactAtSinks(dom, laws, Mentioned(p), Insts(p, n), g, g, |Insts(p, n)|);
    }
  }

  lemma StrictEdgeSinks<C(!new)>(p: Cfg, dom: Domain<C>, laws: Laws<C>, e: EdgeId, f: Fact<C>, g: Fact<C>, f': Fact<C>, g': Fact<C>)
    requires LawfulDomain(dom, laws) && FactLeq(laws, Mentioned(p), f, g) && FactLeq(laws, Mentioned(p), f', g')
    ensures FactLeq(laws, Mentioned(p), StrictEdge(p, dom, e, f, f'), StrictEdge(p, dom, e, g, g'))
  {
    if e in p.edges && Departs(p, p.edges[e]) {
      var insts := Insts(p, p.edges[e].source);
      DefsMentioned(p, p.edges[e].source);
      if f != map[] {
        DepartingSinks(dom, laws, Mentioned(p), insts, f, g, |insts|);
      } else if g != map[] {
        DepartingSinks(dom, laws, Mentioned(p), insts, g, g, |insts|);
      }
    }
  }

  lemma UnknownFull<C(!new)>(p: Cfg, dom: Domain<C>, laws: Laws<C>)
    requires LawfulDomain(dom, laws)
    ensures Full(Mentioned(p), Unknown<C>(p)) && FactLeq(laws, Mentioned(p), Unknown<C>(p), Unknown<C>(p))
  {
  }

  lemma StrictMonotone<C(!new)>(p: Cfg, dom: Domain<C>, laws: Laws<C>)
    requires LawfulDomain(dom, laws)
    ensures Monotone(StrictProblem(p, dom), FactOrder(laws, Mentioned(p)))
  {
    var prob, o := StrictProblem(p, dom), FactOrder(laws, Mentioned(p));
    FactOrderOk(dom, laws, Mentioned(p));
    UnknownFull(p, dom, laws);
    forall n, a, b, c, d | o.le(a, c) && o.le(b, d) ensures OutcomeLeq(o, prob.meet(n, a, b), prob.meet(n, c, d)) {
      MeetFactsSink(dom, laws, Mentioned(p), a, b, c, d);
    }
    forall n, a, b | o.le(a, b) ensures OutcomeLeq(o, prob.node(n, a), prob.node(n, b)) {
      StrictNodeSinks(p, dom, laws, n, a, b);
    }
    forall e, a, b, c, d | o.le(a, c) && o.le(b, d) ensures OutcomeLeq(o, prob.edge(e, a, b), prob.edge(e, c, d)) {
      StrictEdgeSinks(p, dom, laws, e, a, c, b, d);
    }
  }

  ghost predicate Fit<C>(u: set<Var>, f: Fact<C>) { f == map[] || Full(u, f) }

  ghost predicate AllFit<C>(p: Cfg, m: map<Slot, Fact<C>>) {
    forall s {:trigger m[s]} :: s in m ==> Fit(Mentioned(p), m[s])
  }

  lemma {:induction false} SameMeet<C>(p: Cfg, dom: Domain<C>, n: BlockId, m: map<Slot, Fact<C>>, k: nat)
    requires k <= |Upstream(p, Forward, n)|
    ensures MeetUpTo(p, ConstProblem(p, dom), n, m, k) == MeetUpTo(p, StrictProblem(p, dom), n, m, k)
    ensures MeetUpTo(p, ConstProblem(p, dom), n, m, k).Ok?
  {
    if k > 0 {
      SameMeet(p, dom, n, m, k - 1);
      assert FactOn(ConstProblem(p, dom), m, Upstream(p, Forward, n)[k - 1]) ==
             FactOn(StrictProblem(p, dom), m, Upstream(p, Forward, n)[k - 1]);
    }
  }

  /** The fact flowing into a block is full as soon as one of those it meets is. */
  lemma {:induction false} MeetFills<C>(p: Cfg, dom: Domain<C>, n: BlockId, m: map<Slot, Fact<C>>, i: nat, k: nat)
    requires AllFit(p, m) && k <= |Upstream(p, Forward, n)|
    requires if i == 0 then n == p.entry
             else i <= k && Full(Mentioned(p), FactOn(ConstProblem(p, dom), m, Upstream(p, Forward, n)[i - 1]))
    ensures var met := MeetUpTo(p, ConstProblem(p, dom), n, m, k);
            met.Ok? && met.value.Some? && Full(Mentioned(p), met.value.value)
  {
    if k > 0 {
      var u, prob := Mentioned(p), ConstProblem(p, dom);
      var before, fact := MeetUpTo(p, prob, n, m, k - 1), FactOn(prob, m, Upstream(p, Forward, n)[k - 1]);
      assert Fit(u, fact);
      MetFits(p, dom, n, m, k - 1);
      if i < k {
        MeetFills(p, dom, n, m, i, k - 1);
      }
      if before.value.Some? {
        MeetFull(dom, u, before.value.value, fact);
      }
    }
  }

  lemma {:induction false} MetFits<C>(p: Cfg, dom: Domain<C>, n: BlockId, m: map<Slot, Fact<C>>, k: nat)
    requires AllFit(p, m) && k <= |Upstream(p, Forward, n)|
    ensures var met := MeetUpTo(p, ConstProblem(p, dom), n, m, k);
            met.Ok? && (met.value.Some? ==> Fit(Mentioned(p), met.value.value))
  {
    if k > 0 {
      MetFits(p, dom, n, m, k - 1);
      var fact := FactOn(ConstProblem(p, dom), m, Upstream(p, Forward, n)[k - 1]);
      assert Fit(Mentioned(p), fact);
      var before := MeetUpTo(p, ConstProblem(p, dom), n, m, k - 1);
      if before.value.Some? {
        MeetFull(dom, Mentioned(p), before.value.value, fact);
      }
    }
  }

  /** From a full fact both problems compute the same facts. */
  lemma SameFlow<C(!new)>(p: Cfg, dom: Domain<C>, laws: Laws<C>, n: BlockId, f: Fact<C>)
    requires LawfulDomain(dom, laws) && p.WellFormed() && Full(Mentioned(p), f)
    ensures FromFlow(p, ConstProblem(p, dom), n, f) == FromFlow(p, StrictProblem(p, dom), n, f)
  {
    var row, out := Downstream(p, Forward, n), BlockOut(p, dom, n, f);
    FullReplay(p, dom, laws, n, f);
    SameRow(p, dom, row, |row|, f, out, n);
    assert StrictProblem(p, dom).node(n, f) == ConstProblem(p, dom).node(n, f);
  }

  /** And every one of them is full. */
  lemma FullFlow<C(!new)>(p: Cfg, dom: Domain<C>, laws: Laws<C>, n: BlockId, f: Fact<C>)
    requires LawfulDomain(dom, laws) && p.WellFormed() && Full(Mentioned(p), f)
    ensures FromFlow(p, ConstProblem(p, dom), n, f).Ok?
    ensures forall s :: s in FromFlow(p, ConstProblem(p, dom), n, f).value ==>
              Full(Mentioned(p), FromFlow(p, ConstProblem(p, dom), n, f).value[s])
  {
    hide LawfulDomain, Full;
    var row, out := Downstream(p, Forward, n), BlockOut(p, dom, n, f);
    FullReplay(p, dom, laws, n, f);
    SameRow(p, dom, row, |row|, f, out, n);
    FullRow(p, dom, row, f, out);
  }

  lemma FullRow<C>(p: Cfg, dom: Domain<C>, row: seq<EdgeId>, f: Fact<C>, out: Fact<C>)
    requires forall i :: 0 <= i < |row| ==> Full(Mentioned(p), EdgeOut(p, dom, row[i], f, out))
    ensures var r := EdgesOut(ConstProblem(p, dom), row, |row|, f, out);
            r.Ok? && forall s :: s in r.value ==> Full(Mentioned(p), r.value[s])
  {
    EdgesOutAt(ConstProblem(p, dom), row, |row|, f, out);
  }

  lemma FullReplay<C(!new)>(p: Cfg, dom: Domain<C>, laws: Laws<C>, n: BlockId, f: Fact<C>)
    requires LawfulDomain(dom, laws) && Full(Mentioned(p), f)
    ensures Full(Mentioned(p), BlockOut(p, dom, n, f)) && (f == map[] ==> BlockOut(p, dom, n, f) == map[])
    ensures var d := Departing(dom, Insts(p, n), f, |Insts(p, n)|);
            d.Some? ==> Full(Mentioned(p), d.value)
  {
    var u, insts := Mentioned(p), Insts(p, n);
    SelfSinks(dom, laws, u, f);
    DefsMentioned(p, n);
    FactAtSinks(dom, laws, u, insts, f, f, |insts|);
    DepartingSinks(dom, laws, u, insts, f, f, |insts|);
  }

  lemma SelfSinks<C(!new)>(dom: Domain<C>, laws: Laws<C>, u: set<Var>, f: Fact<C>)
    requires LawfulDomain(dom, laws) && Full(u, f)
    ensures FullSinks(laws, u, f, f)
  {
  }

  lemma {:induction false} SameRow<C>(p: Cfg, dom: Domain<C>, row: seq<EdgeId>, k: nat, f: Fact<C>, out: Fact<C>, n: BlockId)
    requires k <= |row| && Full(Mentioned(p), f) && Full(Mentioned(p), out)
    requires forall i :: 0 <= i < |row| ==> row[i] in p.edges && p.edges[row[i]].source == n
    requires var d := Departing(dom, Insts(p, n), f, |Insts(p, n)|);
             d.Some? ==> Full(Mentioned(p), d.value)
    ensures EdgesOut(ConstProblem(p, dom), row, k, f, out) == EdgesOut(StrictProblem(p, dom), row, k, f, out)
    ensures forall i :: 0 <= i < k ==> Full(Mentioned(p), EdgeOut(p, dom, row[i], f, out))
  {
    if k > 0 {
      SameRow(p, dom, row, k - 1, f, out, n);
      assert EdgeOut(p, dom, row[k - 1], f, out) == StrictEdge(p, dom, row[k - 1], f, out);
    }
  }

  lemma FullMeet<C>(p: Cfg, dom: Domain<C>, n: BlockId, m: map<Slot, Fact<C>>, i: nat)
    requires AllFit(p, m)
    requires if i == 0 then n == p.entry
             else i <= |Upstream(p, Forward, n)| &&
                  Full(Mentioned(p), FactOn(ConstProblem(p, dom), m, Upstream(p, Forward, n)[i - 1]))
    ensures MeetEdges(p, ConstProblem(p, dom), n, m) == MeetEdges(p, StrictProblem(p, dom), n, m)
    ensures MeetEdges(p, ConstProblem(p, dom), n, m).Ok? && Full(Mentioned(p), MeetEdges(p, ConstProblem(p, dom), n, m).value)
  {
    SameMeet(p, dom, n, m, |Upstream(p, Forward, n)|);
    MeetFills(p, dom, n, m, i, |Upstream(p, Forward, n)|);
  }
}
