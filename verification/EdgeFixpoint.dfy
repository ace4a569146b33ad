/** The edge-sensitive solver: facts at nodes and on edges, brought to a fixpoint by a worklist. */
module EdgeFixpoint {
  import opened Wrappers
  import opened Program
  import opened Iteration

  datatype Direction = Forward | Backward

  /** A problem whose operations may reject what they are given. */
  datatype EdgeProblem<!F, !E> = EdgeProblem(
    direction: Direction, bottom: F, boundary: nat -> Result<Option<F>, E>, meet: (nat, F, F) -> Result<F, E>,
    node: (nat, F) -> Result<F, E>, edge: (nat, F, F) -> Result<F, E>)

  function Row(rows: map<BlockId, seq<EdgeId>>, n: BlockId): seq<EdgeId> { if n in rows then rows[n] else [] }

  /** The edges facts flow into `n` along, and those they leave it along. */
  function Upstream(p: Cfg, dir: Direction, n: BlockId): seq<EdgeId> {
    if dir.Forward? then Row(p.inc, n) else Row(p.out, n)
  }

  function Downstream(p: Cfg, dir: Direction, n: BlockId): seq<EdgeId> {
    if dir.Forward? then Row(p.out, n) else Row(p.inc, n)
  }

  function Feeder(p: Cfg, dir: Direction, e: EdgeId): BlockId
    requires e in p.edges
  {
    if dir.Forward? then p.edges[e].source else p.edges[e].target
  }

  function Receiver(p: Cfg, dir: Direction, e: EdgeId): BlockId
    requires e in p.edges
  {
    if dir.Forward? then p.edges[e].target else p.edges[e].source
  }

  function FactOn<F, E>(prob: EdgeProblem<F, E>, m: map<Slot, F>, e: EdgeId): F {
    if On(e) in m then m[On(e)] else prob.bottom
  }

  /** The boundary fact of `n` met with the facts on its first `k` upstream edges, when there is any of them. */
  function MeetUpTo<F, E>(p: Cfg, prob: EdgeProblem<F, E>, n: BlockId, m: map<Slot, F>, k: nat): Result<Option<F>, E>
    requires k <= |Upstream(p, prob.direction, n)|
  {
    if k == 0 then prob.boundary(n)
    else
      var fact := FactOn(prob, m, Upstream(p, prob.direction, n)[k - 1]);
      match MeetUpTo(p, prob, n, m, k - 1)
      case Err(e) => Err(e)
      case Ok(None) => Ok(Some(fact))
      case Ok(Some(current)) =>
        match prob.meet(n, current, fact)
        case Err(e) => Err(e)
        case Ok(met) => Ok(Some(met))
  }

  /** The fact flowing into `n`; bottom when it has neither a boundary fact nor an upstream edge. */
  function MeetEdges<F, E>(p: Cfg, prob: EdgeProblem<F, E>, n: BlockId, m: map<Slot, F>): Result<F, E> {
    match MeetUpTo(p, prob, n, m, |Upstream(p, prob.direction, n)|)
    case Err(e) => Err(e)
    case Ok(None) => Ok(prob.bottom)
    case Ok(Some(fact)) => Ok(fact)
  }

  /** The facts that go onto the first `k` edges of `row`. */
  function EdgesOut<F, E>(prob: EdgeProblem<F, E>, row: seq<EdgeId>, k: nat, input: F, output: F): Result<map<Slot, F>, E>
    requires k <= |row|
  {
    if k == 0 then Ok(map[])
    else
      match EdgesOut(prob, row, k - 1, input, output)
      case Err(e) => Err(e)
      case Ok(done) =>
        match prob.edge(row[k - 1], input, output)
        case Err(e) => Err(e)
        case Ok(fact) => Ok(done[On(row[k - 1]) := fact])
  }

  function RowSlots(row: seq<EdgeId>, k: nat): set<Slot>
    requires k <= |row|
  {
    set i | 0 <= i < k :: On(row[i])
  }

  /** The facts at both ends of `n`, in program order, given what flows in and out of it. */
  function NodeFacts<F>(dir: Direction, n: BlockId, flowIn: F, flowOut: F): map<Slot, F> {
    map[In(n) := if dir.Forward? then flowIn else flowOut, Out(n) := if dir.Forward? then flowOut else flowIn]
  }

  /** What a visit of `n` computes once it knows the fact flowing in. */
  function FromFlow<F, E>(p: Cfg, prob: EdgeProblem<F, E>, n: BlockId, flowIn: F): Result<map<Slot, F>, E> {
    match prob.node(n, flowIn)
    case Err(e) => Err(e)
    case Ok(flowOut) =>
      var ends := NodeFacts(prob.direction, n, flowIn, flowOut);
      var row := Downstream(p, prob.direction, n);
      match EdgesOut(prob, row, |row|, ends[In(n)], ends[Out(n)])
      case Err(e) => Err(e)
      case Ok(edges) => Ok(ends + edges)
  }

  /** Everything one visit of `n` computes. */
  function ComputeNode<F, E>(p: Cfg, prob: EdgeProblem<F, E>, n: BlockId, m: map<Slot, F>): Result<map<Slot, F>, E> {
    match MeetEdges(p, prob, n, m)
    case Err(e) => Err(e)
    case Ok(flowIn) => FromFlow(p, prob, n, flowIn)
  }

  function Slots(p: Cfg): set<Slot> {
    (set b | b in p.blocks :: In(b)) + (set b | b in p.blocks :: Out(b)) + (set e | e in p.edges :: On(e))
  }

  function OwnerOf(p: Cfg, dir: Direction, s: Slot): BlockId
    requires s in Slots(p)
  {
    match s
    case In(n) => n
    case Out(n) => n
    case On(e) => Feeder(p, dir, e)
  }

  function EdgeWakes(p: Cfg, dir: Direction): map<Slot, set<nat>> {
    map e | e in p.edges :: On(e) := {Receiver(p, dir, e)}
  }

  function EdgeSystem<F, E>(p: Cfg, prob: EdgeProblem<F, E>): System<F, E> {
    System(p.blocks.Keys, map s | s in Slots(p) :: OwnerOf(p, prob.direction, s), EdgeWakes(p, prob.direction),
           prob.bottom, (n, m) => ComputeNode(p, prob, n, m))
  }

  ghost predicate OutcomeLeq<F, E>(o: Order<F>, a: Result<F, E>, b: Result<F, E>) {
    b.Err? || (a.Ok? && o.le(a.value, b.value))
  }

  /** Monotone operations over an order of bounded height; rejecting a fact means rejecting every greater one. */
  ghost predicate Monotone<F(!new), E(!new)>(prob: EdgeProblem<F, E>, o: Order<F>) {
    && IsOrder(o, prob.bottom)
    && (forall n {:trigger prob.boundary(n)} :: prob.boundary(n).Ok? && prob.boundary(n).value.Some? ==>
          o.le(prob.boundary(n).value.value, prob.boundary(n).value.value))
    && (forall n, a, b, c, d {:trigger prob.meet(n, a, b), prob.meet(n, c, d)} ::
          o.le(a, c) && o.le(b, d) ==> OutcomeLeq(o, prob.meet(n, a, b), prob.meet(n, c, d)))
    && (forall n, a, b {:trigger prob.node(n, a), prob.node(n, b)} ::
          o.le(a, b) ==> OutcomeLeq(o, prob.node(n, a), prob.node(n, b)))
    && (forall e, a, b, c, d {:trigger prob.edge(e, a, b), prob.edge(e, c, d)} ::
          o.le(a, c) && o.le(b, d) ==> OutcomeLeq(o, prob.edge(e, a, b), prob.edge(e, c, d)))
  }

  ghost predicate OptionLeq<F, E>(o: Order<F>, a: Result<Option<F>, E>, b: Result<Option<F>, E>) {
    b.Err? || (a.Ok? && a.value.Some? == b.value.Some? && (a.value.Some? ==> o.le(a.value.value, b.value.value)))
  }

  lemma {:induction false} MeetMonotone<F(!new), E(!new)>(p: Cfg, prob: EdgeProblem<F, E>, o: Order<F>, n: BlockId,
                                                          m: map<Slot, F>, m': map<Slot, F>, k: nat)
    requires p.WellFormed() && Monotone(prob, o) && k <= |Upstream(p, prob.direction, n)|
    requires m.Keys == m'.Keys && forall s :: s in m ==> o.le(m[s], m'[s])
    ensures OptionLeq(o, MeetUpTo(p, prob, n, m, k), MeetUpTo(p, prob, n, m', k))
  {
    if k > 0 {
      MeetMonotone(p, prob, o, n, m, m', k - 1);
      var e := Upstream(p, prob.direction, n)[k - 1];
      assert o.le(FactOn(prob, m, e), FactOn(prob, m', e));
    }
  }

  lemma {:induction false} MeetLocal<F(!new), E(!new)>(p: Cfg, prob: EdgeProblem<F, E>, n: BlockId, m: map<Slot, F>,
                                                       m': map<Slot, F>, k: nat)
    requires k <= |Upstream(p, prob.direction, n)|
    requires forall e :: e in Upstream(p, prob.direction, n) ==> FactOn(prob, m, e) == FactOn(prob, m', e)
    ensures MeetUpTo(p, prob, n, m, k) == MeetUpTo(p, prob, n, m', k)
  {
    if k > 0 {
      MeetLocal(p, prob, n, m, m', k - 1);
      assert Upstream(p, prob.direction, n)[k - 1] in Upstream(p, prob.direction, n);
    }
  }

  /** What goes onto the edges of a row, edge by edge. */
  lemma {:induction false} EdgesOutAt<F, E>(prob: EdgeProblem<F, E>, row: seq<EdgeId>, k: nat, input: F, output: F)
    requires k <= |row|
    ensures EdgesOut(prob, row, k, input, output).Ok? <==> forall i :: 0 <= i < k ==> prob.edge(row[i], input, output).Ok?
    ensures EdgesOut(prob, row, k, input, output).Ok? ==>
              && EdgesOut(prob, row, k, input, output).value.Keys == RowSlots(row, k)
              && forall i :: 0 <= i < k ==>
                   EdgesOut(prob, row, k, input, output).value[On(row[i])] == prob.edge(row[i], input, output).value
  {
    if k > 0 {
      EdgesOutAt(prob, row, k - 1, input, output);
    }
  }

  lemma EdgesOutMonotone<F(!new), E(!new)>(prob: EdgeProblem<F, E>, o: Order<F>, row: seq<EdgeId>, a: F, b: F, c: F, d: F)
    requires Monotone(prob, o) && o.le(a, c) && o.le(b, d)
    ensures var (x, y) := (EdgesOut(prob, row, |row|, a, b), EdgesOut(prob, row, |row|, c, d));
            y.Err? || (x.Ok? && x.value.Keys == y.value.Keys && forall s :: s in x.value ==> o.le(x.value[s], y.value[s]))
  {
    EdgesOutAt(prob, row, |row|, a, b);
    EdgesOutAt(prob, row, |row|, c, d);
    forall i | 0 <= i < |row| ensures OutcomeLeq(o, prob.edge(row[i], a, b), prob.edge(row[i], c, d)) {
    }
  }

  lemma OwnedSlots<F, E>(p: Cfg, prob: EdgeProblem<F, E>, n: BlockId)
    requires p.WellFormed() && n in p.blocks
    ensures var row := Downstream(p, prob.direction, n);
            Owned(EdgeSystem(p, prob), n) == {In(n), Out(n)} + RowSlots(row, |row|)
  {
    var row := Downstream(p, prob.direction, n);
    forall s | s in Owned(EdgeSystem(p, prob), n) && s.On? ensures exists i :: 0 <= i < |row| && s == On(row[i]) {
      assert s.edge in row;
    }
  }

  lemma FlowKeys<F, E>(p: Cfg, prob: EdgeProblem<F, E>, n: BlockId, flowIn: F)
    requires p.WellFormed() && n in p.blocks && FromFlow(p, prob, n, flowIn).Ok?
    ensures FromFlow(p, prob, n, flowIn).value.Keys == Owned(EdgeSystem(p, prob), n)
  {
    OwnedSlots(p, prob, n);
    var ends := NodeFacts(prob.direction, n, flowIn, prob.node(n, flowIn).value);
    var row := Downstream(p, prob.direction, n);
    EdgesOutAt(prob, row, |row|, ends[In(n)], ends[Out(n)]);
  }

  lemma FlowMonotone<F(!new), E(!new)>(p: Cfg, prob: EdgeProblem<F, E>, o: Order<F>, n: BlockId, x: F, y: F)
    requires p.WellFormed() && Monotone(prob, o) && n in p.blocks && o.le(x, y)
    ensures ResultLeq(o, Owned(EdgeSystem(p, prob), n), FromFlow(p, prob, n, x), FromFlow(p, prob, n, y))
  {
    hide EdgesOut, Downstream;
    if FromFlow(p, prob, n, y).Ok? {
      assert OutcomeLeq(o, prob.node(n, x), prob.node(n, y));
      var (ends, ends') := (NodeFacts(prob.direction, n, x, prob.node(n, x).value),
                            NodeFacts(prob.direction, n, y, prob.node(n, y).value));
      EdgesOutMonotone(prob, o, Downstream(p, prob.direction, n), ends[In(n)], ends[Out(n)], ends'[In(n)], ends'[Out(n)]);
      FlowKeys(p, prob, n, x);
      FlowKeys(p, prob, n, y);
    }
  }

  lemma ComputeMonotone<F(!new), E(!new)>(p: Cfg, prob: EdgeProblem<F, E>, o: Order<F>, n: BlockId, m: map<Slot, F>,
                                          m': map<Slot, F>)
    requires p.WellFormed() && Monotone(prob, o) && n in p.blocks && Leq(EdgeSystem(p, prob), o, m, m')
    ensures ResultLeq(o, Owned(EdgeSystem(p, prob), n), ComputeNode(p, prob, n, m), ComputeNode(p, prob, n, m'))
  {
    MeetMonotone(p, prob, o, n, m, m', |Upstream(p, prob.direction, n)|);
    if MeetEdges(p, prob, n, m').Ok? {
      FlowMonotone(p, prob, o, n, MeetEdges(p, prob, n, m).value, MeetEdges(p, prob, n, m').value);
    }
  }

  lemma ComputeLocal<F(!new), E(!new)>(p: Cfg, prob: EdgeProblem<F, E>, n: BlockId, m: map<Slot, F>, m': map<Slot, F>)
    requires p.WellFormed() && n in p.blocks && AgreeWhereWoken(EdgeSystem(p, prob), n, m, m')
    ensures ComputeNode(p, prob, n, m) == ComputeNode(p, prob, n, m')
  {
    forall e | e in Upstream(p, prob.direction, n) ensures FactOn(prob, m, e) == FactOn(prob, m', e) {
      assert n in EdgeSystem(p, prob).wakes[On(e)];
    }
    MeetLocal(p, prob, n, m, m', |Upstream(p, prob.direction, n)|);
  }

  lemma EdgeWired<F(!new), E(!new)>(p: Cfg, prob: EdgeProblem<F, E>)
    requires p.WellFormed()
    ensures Wired(EdgeSystem(p, prob))
  {
    hide MeetEdges, FromFlow;
    var sys := EdgeSystem(p, prob);
    forall n, m: map<Slot, F> | n in sys.nodes && m.Keys == sys.owner.Keys && sys.compute(n, m).Ok?
      ensures sys.compute(n, m).value.Keys == Owned(sys, n)
    {
      FlowKeys(p, prob, n, MeetEdges(p, prob, n, m).value);
    }
    forall n, m: map<Slot, F>, m': map<Slot, F> | n in sys.nodes && AgreeWhereWoken(sys, n, m, m')
      ensures sys.compute(n, m) == sys.compute(n, m')
    {
      ComputeLocal(p, prob, n, m, m');
    }
  }

  /** A monotone problem over any graph is a lawful system. */
  lemma EdgeLawful<F(!new), E(!new)>(p: Cfg, prob: EdgeProblem<F, E>, o: Order<F>)
    requires p.WellFormed() && Monotone(prob, o)
    ensures Lawful(EdgeSystem(p, prob), o)
  {
    var sys := EdgeSystem(p, prob);
    EdgeWired(p, prob);
    forall n, m: map<Slot, F>, m': map<Slot, F> | n in sys.nodes && Leq(sys, o, m, m')
      ensures ResultLeq(o, Owned(sys, n), sys.compute(n, m), sys.compute(n, m'))
    {
      ComputeMonotone(p, prob, o, n, m, m');
    }
  }

  ghost predicate FlowEquations<F, E>(p: Cfg, prob: EdgeProblem<F, E>, facts: map<Slot, F>, n: BlockId, flowIn: F) {
    && In(n) in facts && Out(n) in facts
    && flowIn == (if prob.direction.Forward? then facts[In(n)] else facts[Out(n)])
    && prob.node(n, flowIn) == Ok(if prob.direction.Forward? then facts[Out(n)] else facts[In(n)])
    && forall e :: e in Downstream(p, prob.direction, n) ==>
         On(e) in facts && prob.edge(e, facts[In(n)], facts[Out(n)]) == Ok(facts[On(e)])
  }

  /** The equations of node `n`: what flows in is the meet of its boundary and upstream edges, what flows out is its
      transfer, and every downstream edge carries its own transfer. */
  ghost predicate EquationsAt<F, E>(p: Cfg, prob: EdgeProblem<F, E>, facts: map<Slot, F>, n: BlockId) {
    MeetEdges(p, prob, n, facts).Ok? && FlowEquations(p, prob, facts, n, MeetEdges(p, prob, n, facts).value)
  }

  lemma FlowToEquations<F(!new), E(!new)>(p: Cfg, prob: EdgeProblem<F, E>, facts: map<Slot, F>, n: BlockId, flowIn: F)
    requires p.WellFormed() && n in p.blocks && facts.Keys == Slots(p) && FromFlow(p, prob, n, flowIn).Ok?
    requires forall s :: s in Owned(EdgeSystem(p, prob), n) ==>
               s in FromFlow(p, prob, n, flowIn).value && facts[s] == FromFlow(p, prob, n, flowIn).value[s]
    ensures FlowEquations(p, prob, facts, n, flowIn)
  {
    var row, result := Downstream(p, prob.direction, n), FromFlow(p, prob, n, flowIn).value;
    OwnedSlots(p, prob, n);
    var ends := NodeFacts(prob.direction, n, flowIn, prob.node(n, flowIn).value);
    EdgesOutAt(prob, row, |row|, ends[In(n)], ends[Out(n)]);
    assert facts[In(n)] == result[In(n)] && facts[Out(n)] == result[Out(n)];
    forall e | e in row ensures On(e) in facts && prob.edge(e, ends[In(n)], ends[Out(n)]) == Ok(facts[On(e)]) {
      var i :| 0 <= i < |row| && row[i] == e;
      assert On(e) in Owned(EdgeSystem(p, prob), n);
    }
  }

  lemma RowCarries<F, E>(prob: EdgeProblem<F, E>, row: seq<EdgeId>, facts: map<Slot, F>, input: F, output: F)
    requires forall e :: e in row ==> On(e) in facts && prob.edge(e, input, output) == Ok(facts[On(e)])
    ensures var done := EdgesOut(prob, row, |row|, input, output);
            && done.Ok? && done.value.Keys == RowSlots(row, |row|)
            && forall s :: s in done.value ==> s in facts && done.value[s] == facts[s]
  {
    EdgesOutAt(prob, row, |row|, input, output);
    forall i | 0 <= i < |row| ensures prob.edge(row[i], input, output) == Ok(facts[On(row[i])]) {
      assert row[i] in row;
    }
  }

  lemma EquationsToFlow<F, E>(p: Cfg, prob: EdgeProblem<F, E>, facts: map<Slot, F>, n: BlockId, flowIn: F)
    requires FlowEquations(p, prob, facts, n, flowIn)
    ensures FromFlow(p, prob, n, flowIn).Ok?
    ensures forall s :: s in FromFlow(p, prob, n, flowIn).value ==> s in facts && facts[s] == FromFlow(p, prob, n, flowIn).value[s]
  {
    RowCarries(prob, Downstream(p, prob.direction, n), facts, facts[In(n)], facts[Out(n)]);
  }

  lemma SettledMeansEquations<F(!new), E(!new)>(p: Cfg, prob: EdgeProblem<F, E>, facts: map<Slot, F>, n: BlockId)
    requires p.WellFormed() && n in p.blocks && facts.Keys == Slots(p)
    ensures Settled(EdgeSystem(p, prob), facts, n) <==> EquationsAt(p, prob, facts, n)
  {
    assert EdgeSystem(p, prob).compute(n, facts) == ComputeNode(p, prob, n, facts);
    if Settled(EdgeSystem(p, prob), facts, n) {
      FlowToEquations(p, prob, facts, n, MeetEdges(p, prob, n, facts).value);
    }
    if EquationsAt(p, prob, facts, n) {
      EquationsToFlow(p, prob, facts, n, MeetEdges(p, prob, n, facts).value);
      FlowKeys(p, prob, n, MeetEdges(p, prob, n, facts).value);
    }
  }

  /** One edge of the row of a visit: its new fact, and whom the change wakes. */
  lemma EdgeStep<F, E>(p: Cfg, prob: EdgeProblem<F, E>, row: seq<EdgeId>, i: nat, input: F, output: F,
                       before: map<Slot, F>, ends: map<Slot, F>, done: map<Slot, F>, fact: F)
    requires i < |row| && row[i] in p.edges && On(row[i]) in before && EdgesOut(prob, row, i, input, output) == Ok(done)
    requires prob.edge(row[i], input, output) == Ok(fact) && forall s :: s in ends ==> !s.On?
    ensures EdgesOut(prob, row, i + 1, input, output) == Ok(done[On(row[i]) := fact])
    ensures before + ends + done[On(row[i]) := fact] == (before + ends + done)[On(row[i]) := fact]
    ensures Woken(EdgeWakes(p, prob.direction), before, done[On(row[i]) := fact]) ==
            Woken(EdgeWakes(p, prob.direction), before, done)
            + if fact != (before + ends + done)[On(row[i])] then {Receiver(p, prob.direction, row[i])} else {}
  {
    EdgesOutAt(prob, row, i, input, output);
    var e, wakes := On(row[i]), EdgeWakes(p, prob.direction);
    if e in done {
      var j :| 0 <= j < i && On(row[j]) == e;
      assert done[e] == fact;
      assert done[e := fact] == done;
    } else {
      assert wakes[e] == {Receiver(p, prob.direction, row[i])};
      assert (before + ends + done)[e] == before[e];
      var (was, now) := (Woken(wakes, before, done), Woken(wakes, before, done[e := fact]));
      forall x | x in now ensures x in was || (fact != before[e] && x == Receiver(p, prob.direction, row[i])) {
        var s :| s in done[e := fact] && s in before && done[e := fact][s] != before[s] && s in wakes && x in wakes[s];
        assert s == e || (s in done && done[s] == done[e := fact][s]);
      }
      forall x | x in was ensures x in now {
        var s :| s in done && s in before && done[s] != before[s] && s in wakes && x in wakes[s];
        assert s in done[e := fact] && done[e := fact][s] == done[s];
      }
      if fact != before[e] {
        assert done[e := fact][e] != before[e];
        assert Receiver(p, prob.direction, row[i]) in now;
      }
    }
  }

  /** Carries the facts at both ends of a node onto the edges of `row`, queuing the receiver of every edge whose fact
      changes. */
  method PushRow<F(==), E>(p: Cfg, prob: EdgeProblem<F, E>, row: seq<EdgeId>, input: F, output: F, before: map<Slot, F>,
                           ends: map<Slot, F>, worklist: set<nat>)
    returns (r: Result<State<F>, E>)
    requires forall i :: 0 <= i < |row| ==> row[i] in p.edges && On(row[i]) in before
    requires forall s :: s in ends ==> !s.On?
    ensures r == match EdgesOut(prob, row, |row|, input, output)
                 case Err(e) => Err(e)
                 case Ok(done) =>
                   Ok(State(before + ends + done, worklist + Woken(EdgeWakes(p, prob.direction), before, done)))
  {
    var now, queue := before + ends, worklist;
    ghost var done: map<Slot, F> := map[];
    ghost var wakes := EdgeWakes(p, prob.direction);
    assert Woken(wakes, before, done) == {};
    for i := 0 to |row|
      invariant EdgesOut(prob, row, i, input, output) == Ok(done)
      invariant now == before + ends + done && queue == worklist + Woken(wakes, before, done)
    {
      var fact := prob.edge(row[i], input, output);
      if fact.Err? {
        RowFails(prob, row, i, input, output);
        return Err(fact.error);
      }
      EdgeStep(p, prob, row, i, input, output, before, ends, done, fact.value);
      if fact.value != now[On(row[i])] {
        queue := queue + {Receiver(p, prob.direction, row[i])};
      }
      now := now[On(row[i]) := fact.value];
      done := done[On(row[i]) := fact.value];
    }
    r := Ok(State(now, queue));
  }

  /** Recomputes `n` from the edges flowing into it and queues the receiver of every edge whose fact changes. */
  method VisitAlong<F(==), E>(p: Cfg, prob: EdgeProblem<F, E>, facts: map<Slot, F>, worklist: set<nat>, n: BlockId)
    returns (r: Result<State<F>, E>)
    requires p.WellFormed() && n in p.blocks && facts.Keys == Slots(p)
    ensures r == match ComputeNode(p, prob, n, facts)
                 case Err(e) => Err(e)
                 case Ok(now) => Ok(State(facts + now, worklist + Woken(EdgeWakes(p, prob.direction), facts, now)))
  {
    var met := MeetEdges(p, prob, n, facts);
    if met.Err? {
      return Err(met.error);
    }
    var out := prob.node(n, met.value);
    if out.Err? {
      return Err(out.error);
    }
    var ends := NodeFacts(prob.direction, n, met.value, out.value);
    var row := Downstream(p, prob.direction, n);
    r := PushRow(p, prob, row, ends[In(n)], ends[Out(n)], facts, ends, worklist);
    RowResult(p, prob, row, ends[In(n)], ends[Out(n)], facts, ends, worklist);
  }

  lemma RowResult<F, E>(p: Cfg, prob: EdgeProblem<F, E>, row: seq<EdgeId>, input: F, output: F, facts: map<Slot, F>,
                        ends: map<Slot, F>, worklist: set<nat>)
    requires forall s :: s in ends ==> !s.On?
    ensures match EdgesOut(prob, row, |row|, input, output)
            case Err(_) => true
            case Ok(done) =>
              State(facts + ends + done, worklist + Woken(EdgeWakes(p, prob.direction), facts, done)) ==
              State(facts + (ends + done), worklist + Woken(EdgeWakes(p, prob.direction), facts, ends + done))
  {
    RowInside(prob, row, input, output);
    if EdgesOut(prob, row, |row|, input, output).Ok? {
      var done := EdgesOut(prob, row, |row|, input, output).value;
      EndsWakeNone(p, prob.direction, facts, ends, done);
      assert facts + ends + done == facts + (ends + done);
    }
  }

  lemma RowInside<F, E>(prob: EdgeProblem<F, E>, row: seq<EdgeId>, input: F, output: F)
    ensures EdgesOut(prob, row, |row|, input, output).Ok? ==>
              forall s :: s in EdgesOut(prob, row, |row|, input, output).value ==> s.On?
  {
    EdgesOutAt(prob, row, |row|, input, output);
  }

  lemma {:induction false} RowFails<F, E>(prob: EdgeProblem<F, E>, row: seq<EdgeId>, i: nat, input: F, output: F)
    requires i < |row| && EdgesOut(prob, row, i, input, output).Ok? && prob.edge(row[i], input, output).Err?
    ensures EdgesOut(prob, row, |row|, input, output) == Err(prob.edge(row[i], input, output).error)
  {
    RowFailsTo(prob, row, i, |row|, input, output);
  }

  lemma {:induction false} RowFailsTo<F, E>(prob: EdgeProblem<F, E>, row: seq<EdgeId>, i: nat, k: nat, input: F, output: F)
    requires i < k <= |row| && EdgesOut(prob, row, i, input, output).Ok? && prob.edge(row[i], input, output).Err?
    ensures EdgesOut(prob, row, k, input, output) == Err(prob.edge(row[i], input, output).error)
  {
    if i < k - 1 {
      RowFailsTo(prob, row, i, k - 1, input, output);
    }
  }

  lemma EndsWakeNone<F>(p: Cfg, dir: Direction, facts: map<Slot, F>, ends: map<Slot, F>, done: map<Slot, F>)
    requires forall s :: s in ends ==> !s.On?
    requires forall s :: s in done ==> s.On?
    ensures Woken(EdgeWakes(p, dir), facts, ends + done) == Woken(EdgeWakes(p, dir), facts, done)
  {
    var wakes := EdgeWakes(p, dir);
    forall x | x in Woken(wakes, facts, ends + done) ensures x in Woken(wakes, facts, done) {
      var s :| s in ends + done && s in facts && (ends + done)[s] != facts[s] && s in wakes && x in wakes[s];
      assert s in done && done[s] == (ends + done)[s];
    }
    forall x | x in Woken(wakes, facts, done) ensures x in Woken(wakes, facts, ends + done) {
      var s :| s in done && s in facts && done[s] != facts[s] && s in wakes && x in wakes[s];
      assert (ends + done)[s] == done[s];
    }
  }

  lemma VisitIs<F, E>(p: Cfg, prob: EdgeProblem<F, E>, st: State<F>)
    requires st.worklist != {}
    ensures Visit(EdgeSystem(p, prob), st) ==
            var n := First(st.worklist);
            match ComputeNode(p, prob, n, st.facts)
            case Err(e) => Err(e)
            case Ok(now) =>
              Ok(State(st.facts + now, st.worklist - {n} + Woken(EdgeWakes(p, prob.direction), st.facts, now)))
  {
  }

  /** Visits queued nodes, lowest first, until none is queued, an operation rejects its facts, or the limit is met
      with work left. A solve that ends within some number of visits needs no limit. */
  method TrySolve<F(==), E>(p: Cfg, prob: EdgeProblem<F, E>, seeds: set<nat>, limit: Option<nat>, ghost enough: nat)
    returns (r: Result<Solution<F>, Stop<E>>)
    requires p.WellFormed() && seeds <= p.blocks.Keys && (limit.None? ==> Ends(EdgeSystem(p, prob), seeds, enough))
    ensures SolveOk(EdgeSystem(p, prob), seeds, limit, r)
  {
    var st := State(map s | s in Slots(p) :: prob.bottom, seeds);
    var steps: nat := 0;
    ghost var sys := EdgeSystem(p, prob);
    assert st.facts == Initial(sys, seeds).facts;
    while st.worklist != {}
      invariant RunFor(sys, seeds, steps) == Ok(st)
      invariant st.facts.Keys == Slots(p) && st.worklist <= p.blocks.Keys
      invariant limit.Some? ==> steps <= limit.value
      invariant steps > 0 ==> RunFor(sys, seeds, steps - 1).Ok? && RunFor(sys, seeds, steps - 1).value.worklist != {}
      decreases (if limit.Some? then limit.value else enough) - steps
    {
      var n := First(st.worklist);
      if limit.Some? && steps >= limit.value {
        SolveStopped(sys, seeds, limit.value, st);
        return Err(StepLimitExceeded(limit.value, steps, n));
      }
      if limit.None? {
        EndAhead(sys, seeds, steps, enough);
      }
      var next := VisitAlong(p, prob, st.facts, st.worklist - {n}, n);
      VisitIs(p, prob, st);
      assert RunFor(sys, seeds, steps + 1) == next;
      if next.Err? {
        SolveRejected(sys, seeds, limit, steps + 1, next.error);
        return Err(Problem(next.error));
      }
      VisitInside(p, prob, st);
      ghost var before := steps;
      st, steps := next.value, steps + 1;
      assert RunFor(sys, seeds, before + 1) == Ok(st);
    }
    SolveDone(sys, seeds, limit, st, steps);
    r := Ok(Solution(st.facts, steps));
  }

  /** A monotone problem whose facts can rise only so far is solved without a limit. */
  method Solve<F(==, !new), E(!new)>(p: Cfg, prob: EdgeProblem<F, E>, seeds: set<nat>, ghost o: Order<F>)
    returns (r: Result<Solution<F>, Stop<E>>)
    requires p.WellFormed() && seeds <= p.blocks.Keys && Monotone(prob, o)
    ensures SolveOk(EdgeSystem(p, prob), seeds, None, r)
  {
    EdgeLawful(p, prob, o);
    ghost var enough := LawfulEnds(EdgeSystem(p, prob), o, seeds);
    r := TrySolve(p, prob, seeds, None, enough);
  }

  lemma VisitInside<F, E>(p: Cfg, prob: EdgeProblem<F, E>, st: State<F>)
    requires p.WellFormed() && st.worklist != {} && st.worklist <= p.blocks.Keys && st.facts.Keys == Slots(p)
    requires Visit(EdgeSystem(p, prob), st).Ok?
    ensures var next := Visit(EdgeSystem(p, prob), st).value;
            next.facts.Keys == Slots(p) && next.worklist <= p.blocks.Keys
  {
    var n := First(st.worklist);
    FlowKeys(p, prob, n, MeetEdges(p, prob, n, st.facts).value);
  }

  /** `facts` solve the problem on the nodes of `c`. */
  ghost predicate IsSolution<F, E>(p: Cfg, prob: EdgeProblem<F, E>, c: set<nat>, facts: map<Slot, F>) {
    facts.Keys == Slots(p) && forall n {:trigger EquationsAt(p, prob, facts, n)} :: n in c ==> EquationsAt(p, prob, facts, n)
  }

  /** `c` holds the seeds and every node an edge leads to from inside it, in the direction facts flow. */
  ghost predicate FlowClosed(p: Cfg, dir: Direction, seeds: set<nat>, c: set<nat>) {
    seeds <= c <= p.blocks.Keys && forall e :: e in p.edges && Feeder(p, dir, e) in c ==> Receiver(p, dir, e) in c
  }

  /** Nothing has reached `n`: bottom at both ends and on every edge that touches it. */
  ghost predicate Untouched<F, E>(p: Cfg, prob: EdgeProblem<F, E>, facts: map<Slot, F>, n: BlockId) {
    && In(n) in facts && facts[In(n)] == prob.bottom && Out(n) in facts && facts[Out(n)] == prob.bottom
    && forall e :: e in p.edges && (p.edges[e].source == n || p.edges[e].target == n) && On(e) in facts ==>
         facts[On(e)] == prob.bottom
  }

  /** At a completed fixpoint, monotone or not, every seed satisfies its equations, and every other live node satisfies its own or has
      not been touched. */
  lemma SolvedEquations<F(!new), E(!new)>(p: Cfg, prob: EdgeProblem<F, E>, seeds: set<nat>, limit: Option<nat>,
                                          solved: Solution<F>)
    requires p.WellFormed() && seeds <= p.blocks.Keys
    requires SolveOk(EdgeSystem(p, prob), seeds, limit, Ok(solved))
    ensures IsSolution(p, prob, seeds, solved.facts)
    ensures forall n :: n in p.blocks ==> EquationsAt(p, prob, solved.facts, n) || Untouched(p, prob, solved.facts, n)
  {
    var sys := EdgeSystem(p, prob);
    EdgeWired(p, prob);
    FinishedSolves(sys, seeds, solved.steps);
    forall n | n in seeds ensures EquationsAt(p, prob, solved.facts, n) {
      SettledMeansEquations(p, prob, solved.facts, n);
    }
    forall n | n in p.blocks ensures EquationsAt(p, prob, solved.facts, n) || Untouched(p, prob, solved.facts, n) {
      SettledMeansEquations(p, prob, solved.facts, n);
      if Asleep(sys, seeds, solved.facts, n) {
        AsleepUntouched(p, prob, seeds, solved.facts, n);
      }
    }
  }

  lemma AsleepUntouched<F(!new), E(!new)>(p: Cfg, prob: EdgeProblem<F, E>, seeds: set<nat>, facts: map<Slot, F>, n: BlockId)
    requires p.WellFormed() && n in p.blocks && facts.Keys == Slots(p) && Asleep(EdgeSystem(p, prob), seeds, facts, n)
    ensures Untouched(p, prob, facts, n)
  {
    var sys := EdgeSystem(p, prob);
    assert In(n) in Owned(sys, n) && Out(n) in Owned(sys, n);
    forall e | e in p.edges && (p.edges[e].source == n || p.edges[e].target == n) && On(e) in facts
      ensures facts[On(e)] == prob.bottom
    {
      if Feeder(p, prob.direction, e) == n {
        assert On(e) in Owned(sys, n);
      } else {
        assert n in sys.wakes[On(e)];
      }
    }
  }

  lemma FlowClosedUnder<F, E>(p: Cfg, prob: EdgeProblem<F, E>, seeds: set<nat>, c: set<nat>)
    requires p.WellFormed() && FlowClosed(p, prob.direction, seeds, c)
    ensures ClosedUnder(EdgeSystem(p, prob), seeds, c)
  {
  }

  lemma SolutionBounds<F(!new), E(!new)>(p: Cfg, prob: EdgeProblem<F, E>, o: Order<F>, c: set<nat>, bound: map<Slot, F>)
    requires p.WellFormed() && Monotone(prob, o) && c <= p.blocks.Keys && IsSolution(p, prob, c, bound) && Proper(o, bound)
    ensures Bounds(EdgeSystem(p, prob), o, c, bound)
  {
    var sys := EdgeSystem(p, prob);
    assert Leq(sys, o, bound, bound);
    forall n | n in c
      ensures sys.compute(n, bound).Ok?
      ensures forall s :: s in Owned(sys, n) ==> s in sys.compute(n, bound).value && o.le(sys.compute(n, bound).value[s], bound[s])
    {
      SettledMeansEquations(p, prob, bound, n);
      assert Settled(sys, bound, n);
    }
  }

  /** A completed solve has the least facts of all: below every solution on any set of nodes the seeds flow within. */
  lemma SolvedLeast<F(!new), E(!new)>(p: Cfg, prob: EdgeProblem<F, E>, o: Order<F>, seeds: set<nat>, limit: Option<nat>,
                                      solved: Solution<F>, c: set<nat>, other: map<Slot, F>)
    requires p.WellFormed() && Monotone(prob, o)
    requires SolveOk(EdgeSystem(p, prob), seeds, limit, Ok(solved))
    requires FlowClosed(p, prob.direction, seeds, c) && IsSolution(p, prob, c, other) && Proper(o, other)
    ensures solved.facts.Keys == other.Keys && forall s :: s in other ==> o.le(solved.facts[s], other[s])
  {
    EdgeLawful(p, prob, o);
    FlowClosedUnder(p, prob, seeds, c);
    SolutionBounds(p, prob, o, c, other);
    RunBelow(EdgeSystem(p, prob), o, seeds, c, other, solved.steps);
  }

  /** When an operation rejects its facts, the problem has no solution there at all. */
  lemma RejectedUnsolvable<F(!new), E(!new)>(p: Cfg, prob: EdgeProblem<F, E>, o: Order<F>, seeds: set<nat>, limit: Option<nat>,
                                             error: E, c: set<nat>)
    requires p.WellFormed() && Monotone(prob, o) && FlowClosed(p, prob.direction, seeds, c)
    requires SolveOk<F, E>(EdgeSystem(p, prob), seeds, limit, Err(Problem(error)))
    ensures forall other :: Proper(o, other) ==> !IsSolution(p, prob, c, other)
  {
    var k: nat :| RunFor(EdgeSystem(p, prob), seeds, k) == Err(error);
    forall other | Proper(o, other) && IsSolution(p, prob, c, other) ensures false {
      EdgeLawful(p, prob, o);
      FlowClosedUnder(p, prob, seeds, c);
      SolutionBounds(p, prob, o, c, other);
      RunBelow(EdgeSystem(p, prob), o, seeds, c, other, k);
    }
  }

  /** Outside a set the seeds flow within, every fact keeps its bottom. */
  lemma SolvedConfined<F(!new), E(!new)>(p: Cfg, prob: EdgeProblem<F, E>, seeds: set<nat>, limit: Option<nat>,
                                         solved: Solution<F>, c: set<nat>)
    requires p.WellFormed() && FlowClosed(p, prob.direction, seeds, c)
    requires SolveOk(EdgeSystem(p, prob), seeds, limit, Ok(solved))
    ensures forall s :: s in Slots(p) && OwnerOf(p, prob.direction, s) !in c ==>
              s in solved.facts && solved.facts[s] == prob.bottom
  {
    EdgeWired(p, prob);
    FlowClosedUnder(p, prob, seeds, c);
    RunConfined(EdgeSystem(p, prob), seeds, c, solved.steps);
  }

  /** Limits that let a solve finish do not change it: the same facts after the same number of visits. */
  lemma LimitsAgree<F, E>(p: Cfg, prob: EdgeProblem<F, E>, seeds: set<nat>, limit: Option<nat>, solved: Solution<F>,
                          limit': Option<nat>, solved': Solution<F>)
    requires SolveOk(EdgeSystem(p, prob), seeds, limit, Ok(solved)) && SolveOk(EdgeSystem(p, prob), seeds, limit', Ok(solved'))
    ensures solved == solved'
  {
    SameVisits(EdgeSystem(p, prob), seeds, solved, solved');
  }
}
