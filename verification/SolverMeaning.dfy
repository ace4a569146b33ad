/** What the solvers' completed facts satisfy, told in the graph and the problem alone, for both directions. */
module SolverMeaning {
  import opened Wrappers
  import opened Program
  import opened Iteration
  import EdgeFixpoint
  import NodeFixpoint

  /** Several facts met from the left. */
  function Together<F, E>(meet: (nat, F, F) -> Result<F, E>, n: nat, facts: seq<F>): Result<F, E>
    requires facts != []
  {
    if |facts| == 1 then Ok(facts[0])
    else
      var before := Together(meet, n, facts[..|facts| - 1]);
      if before.Err? then before else meet(n, before.value, facts[|facts| - 1])
  }

  lemma TogetherNext<F, E>(meet: (nat, F, F) -> Result<F, E>, n: nat, facts: seq<F>, fact: F)
    requires facts != []
    ensures Together(meet, n, facts + [fact]) ==
            var before := Together(meet, n, facts);
            if before.Err? then before else meet(n, before.value, fact)
  {
    assert (facts + [fact])[..|facts|] == facts;
  }

  /** The first `k` of the facts on the edges of `row`. */
  function OnEdges<F>(facts: map<Slot, F>, row: seq<EdgeId>, k: nat): seq<F>
    requires k <= |row| && forall i :: 0 <= i < |row| ==> On(row[i]) in facts
  {
    seq(k, i requires 0 <= i < k => facts[On(row[i])])
  }

  /** What an edge problem feeds a node: its boundary fact when it has one, and the facts on the edges of `row`. */
  function Fed<F, E>(prob: EdgeFixpoint.EdgeProblem<F, E>, n: nat, facts: map<Slot, F>, row: seq<EdgeId>, k: nat): seq<F>
    requires k <= |row| && forall i :: 0 <= i < |row| ==> On(row[i]) in facts
  {
    (match prob.boundary(n)
     case Ok(Some(start)) => [start]
     case _ => []) + OnEdges(facts, row, k)
  }

  lemma {:induction false} MeetIsTogether<F, E>(p: Cfg, prob: EdgeFixpoint.EdgeProblem<F, E>, n: nat, facts: map<Slot, F>, k: nat)
    requires prob.boundary(n).Ok?
    requires var row := EdgeFixpoint.Upstream(p, prob.direction, n);
             k <= |row| && forall i :: 0 <= i < |row| ==> On(row[i]) in facts
    ensures var fed := Fed(prob, n, facts, EdgeFixpoint.Upstream(p, prob.direction, n), k);
            EdgeFixpoint.MeetUpTo(p, prob, n, facts, k) ==
            if fed == [] then Ok(None)
            else
              var met := Together(prob.meet, n, fed);
              if met.Err? then Err(met.error) else Ok(Some(met.value))
  {
    var row := EdgeFixpoint.Upstream(p, prob.direction, n);
    if k > 0 {
      MeetIsTogether(p, prob, n, facts, k - 1);
      var before, fact := Fed(prob, n, facts, row, k - 1), facts[On(row[k - 1])];
      assert Fed(prob, n, facts, row, k) == before + [fact];
      if before != [] {
        TogetherNext(prob.meet, n, before, fact);
      }
    }
  }

  /** The equations of node `n`, where facts flow in from the edges of `row` to `first` and out of it to `last`. */
  ghost predicate EdgeEquations<F, E>(prob: EdgeFixpoint.EdgeProblem<F, E>, facts: map<Slot, F>, n: nat, row: seq<EdgeId>,
                                      first: Slot, last: Slot)
  {
    && prob.boundary(n).Ok? && (forall i :: 0 <= i < |row| ==> On(row[i]) in facts) && first in facts && last in facts
    && var fed := Fed(prob, n, facts, row, |row|);
       && (if fed == [] then facts[first] == prob.bottom else Together(prob.meet, n, fed) == Ok(facts[first]))
       && prob.node(n, facts[first]) == Ok(facts[last])
  }

  /** At a completed solve every seed satisfies the equations of its direction: forwards, the edges into it feed its start
      and its end feeds the edges out of it; backwards, the other way round. */
  lemma EdgesSolved<F(!new), E(!new)>(p: Cfg, prob: EdgeFixpoint.EdgeProblem<F, E>, seeds: set<nat>, limit: Option<nat>,
                                      solved: Solution<F>, n: nat)
    requires p.WellFormed() && seeds <= p.blocks.Keys && n in seeds
    requires SolveOk(EdgeFixpoint.EdgeSystem(p, prob), seeds, limit, Ok(solved))
    ensures n in p.inc && n in p.out
    ensures prob.direction.Forward? ==>
              && EdgeEquations(prob, solved.facts, n, p.inc[n], In(n), Out(n))
              && forall e :: e in p.edges && p.edges[e].source == n ==>
                   On(e) in solved.facts && prob.edge(e, solved.facts[In(n)], solved.facts[Out(n)]) == Ok(solved.facts[On(e)])
    ensures prob.direction.Backward? ==>
              && EdgeEquations(prob, solved.facts, n, p.out[n], Out(n), In(n))
              && forall e :: e in p.edges && p.edges[e].target == n ==>
                   On(e) in solved.facts && prob.edge(e, solved.facts[In(n)], solved.facts[Out(n)]) == Ok(solved.facts[On(e)])
  {
    hide SolveOk, EdgeFixpoint.MeetUpTo, Together, Fed;
    EdgeFixpoint.SolvedEquations(p, prob, seeds, limit, solved);
    var facts, row := solved.facts, EdgeFixpoint.Upstream(p, prob.direction, n);
    assert EdgeFixpoint.EquationsAt(p, prob, facts, n);
    RowSlots(p, prob.direction, n, facts);
    BoundaryOk(p, prob, n, facts, |row|);
    MeetIsTogether(p, prob, n, facts, |row|);
    forall e | e in p.edges && EdgeFixpoint.Feeder(p, prob.direction, e) == n
      ensures e in EdgeFixpoint.Downstream(p, prob.direction, n)
    {
    }
  }

  lemma RowSlots<F>(p: Cfg, dir: EdgeFixpoint.Direction, n: BlockId, facts: map<Slot, F>)
    requires p.WellFormed() && n in p.blocks && facts.Keys == EdgeFixpoint.Slots(p)
    ensures forall i :: 0 <= i < |EdgeFixpoint.Upstream(p, dir, n)| ==> On(EdgeFixpoint.Upstream(p, dir, n)[i]) in facts
  {
    var row := EdgeFixpoint.Upstream(p, dir, n);
    forall i | 0 <= i < |row| ensures On(row[i]) in facts {
      assert row[i] in p.edges;
    }
  }

  lemma {:induction false} BoundaryOk<F, E>(p: Cfg, prob: EdgeFixpoint.EdgeProblem<F, E>, n: nat, facts: map<Slot, F>, k: nat)
    requires k <= |EdgeFixpoint.Upstream(p, prob.direction, n)| && EdgeFixpoint.MeetUpTo(p, prob, n, facts, k).Ok?
    ensures prob.boundary(n).Ok?
  {
    if k > 0 {
      BoundaryOk(p, prob, n, facts, k - 1);
    }
  }

  /** The facts that flow out of the blocks at the far ends of the first `k` edges of `row`. */
  function FromNeighbours<F>(p: Cfg, facts: map<Slot, F>, row: seq<EdgeId>, forwards: bool, k: nat): seq<F>
    requires k <= |row|
    requires forall i :: 0 <= i < |row| ==> row[i] in p.edges && Out(FarEnd(p, row[i], forwards)) in facts
  {
    seq(k, i requires 0 <= i < k => facts[Out(FarEnd(p, row[i], forwards))])
  }

  function FarEnd(p: Cfg, e: EdgeId, forwards: bool): BlockId
    requires e in p.edges
  {
    if forwards then p.edges[e].source else p.edges[e].target
  }

  lemma {:induction false} NodeMeetIsTogether<F, E>(p: Cfg, prob: NodeFixpoint.NodeProblem<F, E>, entry: Option<nat>, start: F,
                                                    n: nat, facts: map<Slot, F>, k: nat)
    requires var row := EdgeFixpoint.Upstream(p, prob.direction, n);
             && k <= |row|
             && forall i :: 0 <= i < |row| ==> row[i] in p.edges && Out(FarEnd(p, row[i], prob.direction.Forward?)) in facts
    ensures var row := EdgeFixpoint.Upstream(p, prob.direction, n);
            var fed := (if entry == Some(n) then [start] else []) + FromNeighbours(p, facts, row, prob.direction.Forward?, k);
            NodeFixpoint.MeetUpTo(p, prob, entry, start, n, facts, k) ==
            if fed == [] then Ok(None)
            else
              var met := Together(prob.meet, n, fed);
              if met.Err? then Err(met.error) else Ok(Some(met.value))
  {
    var row, forwards := EdgeFixpoint.Upstream(p, prob.direction, n), prob.direction.Forward?;
    var own := if entry == Some(n) then [start] else [];
    if k > 0 {
      NodeMeetIsTogether(p, prob, entry, start, n, facts, k - 1);
      var before, fact := own + FromNeighbours(p, facts, row, forwards, k - 1), facts[Out(FarEnd(p, row[k - 1], forwards))];
      assert own + FromNeighbours(p, facts, row, forwards, k) == before + [fact];
      assert NodeFixpoint.FactFrom(p, prob, n, facts, k - 1) == fact;
      if before != [] {
        TogetherNext(prob.meet, n, before, fact);
      }
    }
  }

  /** The equations of a node whose neighbours upstream lie at the far ends of the edges of `row`: it is fed the boundary
      fact when it is the entry or nothing is upstream, and what flows out of its neighbours. */
  ghost predicate NodeEquations<F, E>(p: Cfg, prob: NodeFixpoint.NodeProblem<F, E>, entry: Option<nat>, start: F,
                                      facts: map<Slot, F>, n: nat, row: seq<EdgeId>, forwards: bool)
  {
    && (forall i :: 0 <= i < |row| ==> row[i] in p.edges && Out(FarEnd(p, row[i], forwards)) in facts)
    && In(n) in facts && Out(n) in facts
    && var fed := (if entry == Some(n) then [start] else []) + FromNeighbours(p, facts, row, forwards, |row|);
       && (if fed == [] then facts[In(n)] == start else Together(prob.meet, n, fed) == Ok(facts[In(n)]))
       && prob.transfer(n, facts[In(n)]) == Ok(facts[Out(n)])
  }

  /** At a completed node solve every seed satisfies the equations of its direction. */
  lemma NodesSolved<F(!new), E(!new)>(p: Cfg, prob: NodeFixpoint.NodeProblem<F, E>, entry: Option<nat>, start: F,
                                      seeds: set<nat>, limit: Option<nat>, solved: Solution<F>, n: nat)
    requires p.WellFormed() && seeds <= p.blocks.Keys && n in seeds
    requires SolveOk(NodeFixpoint.NodeSystem(p, prob, entry, start), seeds, limit, Ok(solved))
    ensures n in p.inc && n in p.out
    ensures prob.direction.Forward? ==> NodeEquations(p, prob, entry, start, solved.facts, n, p.inc[n], true)
    ensures prob.direction.Backward? ==> NodeEquations(p, prob, entry, start, solved.facts, n, p.out[n], false)
  {
    hide SolveOk, NodeEquations, NodeFixpoint.EquationsAt;
    NodeFixpoint.SolvedEquations(p, prob, entry, start, seeds, limit, solved);
    assert NodeFixpoint.EquationsAt(p, prob, entry, start, solved.facts, n);
    EquationsTogether(p, prob, entry, start, solved.facts, n);
  }

  lemma EquationsTogether<F, E>(p: Cfg, prob: NodeFixpoint.NodeProblem<F, E>, entry: Option<nat>, start: F,
                                facts: map<Slot, F>, n: nat)
    requires p.WellFormed() && n in p.blocks && facts.Keys == NodeFixpoint.NodeSlots(p)
    requires NodeFixpoint.EquationsAt(p, prob, entry, start, facts, n)
    ensures NodeEquations(p, prob, entry, start, facts, n, EdgeFixpoint.Upstream(p, prob.direction, n), prob.direction.Forward?)
  {
    hide NodeFixpoint.MeetUpTo, Together, FromNeighbours, Cfg.WellFormed;
    NeighbourSlots(p, prob.direction, n, facts);
    NodeMeetIsTogether(p, prob, entry, start, n, facts, |EdgeFixpoint.Upstream(p, prob.direction, n)|);
  }

  lemma NeighbourSlots<F>(p: Cfg, dir: EdgeFixpoint.Direction, n: BlockId, facts: map<Slot, F>)
    requires p.WellFormed() && n in p.blocks && facts.Keys == NodeFixpoint.NodeSlots(p)
    ensures var row := EdgeFixpoint.Upstream(p, dir, n);
            forall i :: 0 <= i < |row| ==> row[i] in p.edges && Out(FarEnd(p, row[i], dir.Forward?)) in facts
  {
  }
}
