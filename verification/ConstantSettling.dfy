/** A graph on which an early block leads to a cycle and every solve ends all the same: what the early block sends late
    also reaches the cycle past it. So `EarlyAcyclic` is enough, and not necessary. */
module ConstantSettling {
  import opened Wrappers
  import opened EdgeKinds
  import opened Program
  import opened Trails
  import opened Iteration
  import opened EdgeFixpoint
  import opened Constants
  import opened ConstantPropagation
  import opened StrictPropagation
  import opened EarlyBlocks
  import opened ConstantTermination

  ghost predicate Joins(p: Cfg, e: EdgeId, a: BlockId, b: BlockId) {
    e in p.edges && p.edges[e].source == a && p.edges[e].target == b && !IsUnwind(p.edges[e])
  }

  /** The entry 0 leads to 1 and 3, block 3 to 2 and 1, block 2 to 1, and block 1 to itself. */
  ghost predicate Masked(p: Cfg) {
    && p.WellFormed() && p.entry == 0 && (forall n: nat :: n in p.blocks <==> n < 4) && (forall e: nat :: e in p.edges <==> e < 6)
    && Joins(p, 0, 0, 1) && Joins(p, 1, 0, 3) && Joins(p, 2, 3, 2) && Joins(p, 3, 3, 1) && Joins(p, 4, 2, 1) && Joins(p, 5, 1, 1)
    && Upstream(p, Forward, 0) == [] && Upstream(p, Forward, 1) == [0, 3, 4, 5]
    && Upstream(p, Forward, 2) == [2] && Upstream(p, Forward, 3) == [1]
  }

  lemma MaskedEdges(p: Cfg)
    requires Masked(p)
    ensures NoDeparture(p) && forall e :: e in p.edges ==> e == 0 || e == 1 || e == 2 || e == 3 || e == 4 || e == 5
  {
    forall e | e in p.edges ensures e == 0 || e == 1 || e == 2 || e == 3 || e == 4 || e == 5 {
    }
  }

  lemma MaskedReached(p: Cfg)
    requires Masked(p)
    ensures ReachableBlocks(p) == p.blocks.Keys && forall n: nat :: n < 4 ==> ReachableBlock(p, n)
  {
    assert IsTrailTo(p, From(0), 0, 0);
    assert ReachableBlock(p, 0);
    hide ReachableBlock, LeadsOn, Affected, Cfg.WellFormed, Upstream;
    EdgeLeads(p, 0);
    EdgeLeads(p, 1);
    EdgeLeads(p, 2);
    forall n | n in p.blocks ensures ReachableBlock(p, n) {
      assert n == 0 || n == 1 || n == 2 || n == 3;
    }
  }

  /** Block 2 is early and leads to the cycle of block 1. */
  lemma MaskedLeadsRound(p: Cfg)
    requires Masked(p)
    ensures Early(p, 2) && Affected(p, 1) && LeadsOn(p, 1, 1) && !EarlyAcyclic(p)
  {
    MaskedReached(p);
    MaskedEdges(p);
    assert Early(p, 2);
    EarlyAffected(p, 2);
    EdgeLeads(p, 4);
    EdgeLeads(p, 5);
  }

  /** What the edges carry: `a` those of the entry, `c` those of block 3, `g` and `x` those of blocks 2 and 1. */
  ghost predicate Carries<C>(p: Cfg, m: map<Slot, Fact<C>>, a: Fact<C>, c: Fact<C>, g: Fact<C>, x: Fact<C>) {
    && m.Keys == Slots(p) && (forall e: nat :: e < 6 ==> On(e) in m)
    && m[On(0)] == m[On(1)] == a && m[On(2)] == m[On(3)] == c && m[On(4)] == g && m[On(5)] == x
  }

  /** What block 1 meets besides its own fact. */
  function Base<C>(dom: Domain<C>, a: Fact<C>, c: Fact<C>, g: Fact<C>): Fact<C> { MeetFacts(dom, MeetFacts(dom, a, c), g) }

  /** What block 1 makes of its own fact. */
  function Round<C>(p: Cfg, dom: Domain<C>, base: Fact<C>, x: Fact<C>): Fact<C> { BlockOut(p, dom, 1, MeetFacts(dom, base, x)) }

  /** What each block is entered with. */
  lemma Meets<C>(p: Cfg, dom: Domain<C>, m: map<Slot, Fact<C>>, a: Fact<C>, c: Fact<C>, g: Fact<C>, x: Fact<C>)
    requires Masked(p) && Carries(p, m, a, c, g, x)
    ensures MeetEdges(p, ConstProblem(p, dom), 0, m) == Ok(Unknown(p))
    ensures MeetEdges(p, ConstProblem(p, dom), 1, m) == Ok(MeetFacts(dom, Base(dom, a, c, g), x))
    ensures MeetEdges(p, ConstProblem(p, dom), 2, m) == Ok(c)
    ensures MeetEdges(p, ConstProblem(p, dom), 3, m) == Ok(a)
  {
    hide MeetFacts, Unknown, Cfg.WellFormed;
    var prob := ConstProblem(p, dom);
    assert MeetUpTo(p, prob, 1, m, 0) == Ok(None);
    assert MeetUpTo(p, prob, 1, m, 1) == Ok(Some(a));
    assert MeetUpTo(p, prob, 1, m, 2) == Ok(Some(MeetFacts(dom, a, c)));
    assert MeetUpTo(p, prob, 1, m, 3) == Ok(Some(Base(dom, a, c, g)));
    assert MeetUpTo(p, prob, 1, m, 4) == Ok(Some(MeetFacts(dom, Base(dom, a, c, g), x)));
    assert MeetUpTo(p, prob, 2, m, 0) == Ok(None);
    assert MeetUpTo(p, prob, 3, m, 0) == Ok(None);
  }

  /** `f` says no more than `g` says of a variable `g` speaks of, and what `c` says of any other. */
  ghost predicate Follows<C>(laws: Laws<C>, u: set<Var>, c: Fact<C>, f: Fact<C>, g: Fact<C>) {
    && Full(u, f) && Full(u, c) && g.Keys <= u && (forall v :: v in g ==> !g[v].Top? && Sinks(laws, f[v], g[v]))
    && forall v :: v in u && v !in g ==> f[v] == c[v]
  }

  lemma StepFollows<C(!new)>(dom: Domain<C>, laws: Laws<C>, u: set<Var>, inst: Inst, c: Fact<C>, f: Fact<C>, g: Fact<C>)
    requires LawfulDomain(dom, laws) && Follows(laws, u, c, f, g) && Elems(inst.defs) <= u
    ensures Follows(laws, u, c, StepFact(dom, inst, f), StepFact(dom, inst, g))
  {
    assert KnowsLess(laws, Known(f), Known(g)) by {
      forall v | v in Known(g) ensures v in Known(f) && laws.weaker(Known(f)[v], Known(g)[v]) {
        assert Sinks(laws, f[v], g[v]);
      }
    }
    var (x, y) := (dom.fold(inst, Known(f)), dom.fold(inst, Known(g)));
    forall v | v in StepFact(dom, inst, g) ensures Sinks(laws, StepFact(dom, inst, f)[v], StepFact(dom, inst, g)[v]) {
      if v in inst.defs {
        assert Sinks(laws, DefValue(x, v), DefValue(y, v));
      }
    }
  }

  /** Entered with nothing, a block sends what it would send entered with `c`, less what it learns of `c`. */
  lemma {:induction false} BlockFollows<C(!new)>(dom: Domain<C>, laws: Laws<C>, u: set<Var>, insts: seq<Inst>, c: Fact<C>, i: nat)
    requires LawfulDomain(dom, laws) && Full(u, c) && DefsWithin(insts, u) && i <= |insts|
    ensures Follows(laws, u, c, FactAt(dom, insts, c, i), FactAt(dom, insts, map[], i))
  {
    hide LawfulDomain;
    if i > 0 {
      BlockFollows(dom, laws, u, insts, c, i - 1);
      StepFollows(dom, laws, u, insts[i - 1], c, FactAt(dom, insts, c, i - 1), FactAt(dom, insts, map[], i - 1));
    }
  }

  lemma MeetTwice<C(!new)>(dom: Domain<C>, laws: Laws<C>, a: ConstValue<C>, c: ConstValue<C>)
    requires LawfulDomain(dom, laws) && !a.Top? && !c.Top?
    ensures Sinks(laws, MeetWith(dom, MeetWith(dom, a, c), c), MeetWith(dom, a, c))
  {
    var m := MeetWith(dom, a, c);
    if m.Const? {
      assert laws.weaker(c.value, m.value) && laws.weaker(m.value, m.value);
      assert dom.meet(m.value, c.value).Some?;
    }
  }

  /** The cycle loses nothing when block 2 learns what block 3 sends: it has met that already. */
  lemma MaskedRises<C(!new)>(dom: Domain<C>, laws: Laws<C>, u: set<Var>, a: Fact<C>, c: Fact<C>, h: Fact<C>, g: Fact<C>)
    requires LawfulDomain(dom, laws) && Full(u, a) && Follows(laws, u, c, h, g)
    ensures FullSinks(laws, u, Base(dom, a, c, h), Base(dom, a, c, g))
  {
    hide LawfulDomain;
    MeetFull(dom, u, a, c);
    MeetFull(dom, u, MeetFacts(dom, a, c), h);
    assert Full(u, Base(dom, a, c, g)) by { FullBase(dom, u, a, c, g); }
    forall v | v in u ensures Sinks(laws, Base(dom, a, c, h)[v], Base(dom, a, c, g)[v]) {
      var m := MeetWith(dom, a[v], c[v]);
      if v in g {
        SelfSink(dom, laws, m);
        MeetSinks(dom, laws, m, h[v], m, g[v]);
      } else {
        MeetTwice(dom, laws, a[v], c[v]);
      }
    }
  }

  lemma SelfSink<C(!new)>(dom: Domain<C>, laws: Laws<C>, a: ConstValue<C>)
    requires LawfulDomain(dom, laws)
    ensures Sinks(laws, a, a)
  {
  }

  lemma FullBase<C>(dom: Domain<C>, u: set<Var>, a: Fact<C>, c: Fact<C>, g: Fact<C>)
    requires Full(u, a) && (c == map[] || Full(u, c)) && g.Keys <= u && forall v :: v in g ==> !g[v].Top?
    ensures Full(u, Base(dom, a, c, g))
  {
    MeetFull(dom, u, a, c);
    MeetMore(dom, u, MeetFacts(dom, a, c), g);
  }

  lemma MeetMore<C>(dom: Domain<C>, u: set<Var>, f: Fact<C>, g: Fact<C>)
    requires Full(u, f) && g.Keys <= u && forall v :: v in g ==> !g[v].Top?
    ensures Full(u, MeetFacts(dom, f, g))
  {
    assert MeetFacts(dom, f, g).Keys == u;
  }

  /** Meeting more says less. */
  lemma MeetsLess<C(!new)>(dom: Domain<C>, laws: Laws<C>, u: set<Var>, f: Fact<C>, g: Fact<C>)
    requires LawfulDomain(dom, laws) && Full(u, f) && g.Keys <= u && forall v :: v in g ==> !g[v].Top?
    ensures FullSinks(laws, u, f, MeetFacts(dom, f, g))
  {
    MeetMore(dom, u, f, g);
    forall v | v in u ensures Sinks(laws, f[v], MeetFacts(dom, f, g)[v]) {
      assert MeetFacts(dom, f, g)[v] == MeetWith(dom, f[v], Get(g, v));
      SelfSink(dom, laws, f[v]);
    }
  }

  /** A block's own round is monotone. */
  lemma RoundSinks<C(!new)>(p: Cfg, dom: Domain<C>, laws: Laws<C>, b: Fact<C>, b': Fact<C>, x: Fact<C>, x': Fact<C>)
    requires LawfulDomain(dom, laws) && FullSinks(laws, Mentioned(p), b, b') && FactLeq(laws, Mentioned(p), x, x')
    ensures FullSinks(laws, Mentioned(p), Round(p, dom, b, x), Round(p, dom, b', x'))
  {
    hide LawfulDomain;
    var u := Mentioned(p);
    MeetFactsSink(dom, laws, u, b, x, b', x');
    MeetFull(dom, u, b, x);
    FullLeq(laws, u, MeetFacts(dom, b, x), MeetFacts(dom, b', x'));
    DefsMentioned(p, 1);
    FactAtSinks(dom, laws, u, Insts(p, 1), MeetFacts(dom, b, x), MeetFacts(dom, b', x'), |Insts(p, 1)|);
  }

  lemma FullLeq<C>(laws: Laws<C>, u: set<Var>, f: Fact<C>, g: Fact<C>)
    requires Full(u, f) && FactLeq(laws, u, f, g) && Full(u, g)
    ensures FullSinks(laws, u, f, g)
  {
  }

  /** What the entry and block 3 send, and what block 2 sends before and after it has been reached. */
  function Entered<C>(p: Cfg, dom: Domain<C>): Fact<C> { BlockOut(p, dom, 0, Unknown(p)) }

  function Later<C>(p: Cfg, dom: Domain<C>): Fact<C> { BlockOut(p, dom, 3, Entered(p, dom)) }

  function Premature<C>(p: Cfg, dom: Domain<C>): Fact<C> { BlockOut(p, dom, 2, map[]) }

  function Reached<C>(p: Cfg, dom: Domain<C>): Fact<C> { BlockOut(p, dom, 2, Later(p, dom)) }

  lemma Ingredients<C(!new)>(p: Cfg, dom: Domain<C>, laws: Laws<C>)
    requires LawfulDomain(dom, laws)
    ensures var u := Mentioned(p);
            && Full(u, Entered(p, dom)) && Full(u, Later(p, dom))
            && Follows(laws, u, Later(p, dom), Reached(p, dom), Premature(p, dom))
  {
    hide LawfulDomain, Full, Follows;
    UnknownFull(p, dom, laws);
    FullReplay(p, dom, laws, 0, Unknown(p));
    FullReplay(p, dom, laws, 3, Entered(p, dom));
    DefsMentioned(p, 2);
    BlockFollows(dom, laws, Mentioned(p), Insts(p, 2), Later(p, dom), |Insts(p, 2)|);
  }

  /** What block 1 meets besides its own fact, given which of blocks 2 and 3 are queued. */
  function BaseAt<C>(p: Cfg, dom: Domain<C>, two: bool, three: bool): Fact<C> {
    Base(dom, Entered(p, dom), if three then map[] else Later(p, dom),
         if two && three then map[] else if two || three then Premature(p, dom) else Reached(p, dom))
  }

  /** The solve once the entry has been visited. While block 2 or 3 is queued the cycle's own fact only falls; after that
      it only rises. When block 1 is not queued it is at rest. */
  ghost predicate Turning<C>(p: Cfg, dom: Domain<C>, laws: Laws<C>, st: State<Fact<C>>) {
    && st.worklist <= p.blocks.Keys && 0 !in st.worklist && (forall e: nat :: e < 6 ==> On(e) in st.facts)
    && var two, three, x := 2 in st.worklist, 3 in st.worklist, st.facts[On(5)];
       && Carries(p, st.facts, Entered(p, dom), if three then map[] else Later(p, dom),
                  if two && three then map[] else if two || three then Premature(p, dom) else Reached(p, dom), x)
       && Turns(p, dom, laws, BaseAt(p, dom, two, three), two || three, 1 in st.worklist, x)
  }

  ghost predicate Turns<C>(p: Cfg, dom: Domain<C>, laws: Laws<C>, base: Fact<C>, falls: bool, queued: bool, x: Fact<C>) {
    && Full(Mentioned(p), base) && (x == map[] || Full(Mentioned(p), x))
    && (if falls then FactLeq(laws, Mentioned(p), x, Round(p, dom, base, x)) else FactLeq(laws, Mentioned(p), Round(p, dom, base, x), x))
    && (!queued ==> x == Round(p, dom, base, x))
  }

  lemma RoundFull<C(!new)>(p: Cfg, dom: Domain<C>, laws: Laws<C>, base: Fact<C>, x: Fact<C>)
    requires LawfulDomain(dom, laws) && Full(Mentioned(p), base) && (x == map[] || Full(Mentioned(p), x))
    ensures Full(Mentioned(p), Round(p, dom, base, x))
  {
    hide LawfulDomain;
    MeetFull(dom, Mentioned(p), base, x);
    FullReplay(p, dom, laws, 1, MeetFacts(dom, base, x));
  }

  lemma FitLeq<C(!new)>(dom: Domain<C>, laws: Laws<C>, u: set<Var>, x: Fact<C>)
    requires LawfulDomain(dom, laws) && (x == map[] || Full(u, x))
    ensures FactLeq(laws, u, x, x)
  {
  }

  /** One more round goes on the same way. */
  lemma TurnsOn<C(!new)>(p: Cfg, dom: Domain<C>, laws: Laws<C>, base: Fact<C>, falls: bool, queued: bool, x: Fact<C>, queued': bool)
    requires LawfulDomain(dom, laws) && Turns(p, dom, laws, base, falls, queued, x)
    requires !queued' ==> Round(p, dom, base, x) == x
    ensures Turns(p, dom, laws, base, falls, queued', Round(p, dom, base, x))
  {
    hide LawfulDomain, Full, Round;
    var x' := Round(p, dom, base, x);
    SelfSinks(dom, laws, Mentioned(p), base);
    RoundFull(p, dom, laws, base, x);
    if falls {
      RoundSinks(p, dom, laws, base, base, x, x');
    } else {
      RoundSinks(p, dom, laws, base, base, x', x);
    }
  }

  /** When block 1 is at rest and meets less than before, its fact falls; and when it meets more, it rises. */
  lemma TurnsFrom<C(!new)>(p: Cfg, dom: Domain<C>, laws: Laws<C>, base: Fact<C>, was: bool, base': Fact<C>, falls: bool, queued: bool, x: Fact<C>)
    requires LawfulDomain(dom, laws) && Turns(p, dom, laws, base, was, false, x) && (!queued ==> base' == base)
    requires if falls then FullSinks(laws, Mentioned(p), base, base') else FullSinks(laws, Mentioned(p), base', base)
    ensures Turns(p, dom, laws, base', falls, queued, x)
  {
    hide LawfulDomain, Round;
    FitLeq(dom, laws, Mentioned(p), x);
    if falls {
      RoundSinks(p, dom, laws, base, base', x, x);
    } else {
      RoundSinks(p, dom, laws, base', base, x, x);
    }
  }

  /** How the bases follow each other. */
  lemma BasesFollow<C(!new)>(p: Cfg, dom: Domain<C>, laws: Laws<C>)
    requires LawfulDomain(dom, laws)
    ensures var u := Mentioned(p);
            && FullSinks(laws, u, BaseAt(p, dom, true, true), BaseAt(p, dom, false, true))
            && FullSinks(laws, u, BaseAt(p, dom, false, true), BaseAt(p, dom, true, false))
            && FullSinks(laws, u, BaseAt(p, dom, false, false), BaseAt(p, dom, true, false))
  {
    hide LawfulDomain, Full, Entered, Later, Premature, Reached;
    var u, a, c, g, h := Mentioned(p), Entered(p, dom), Later(p, dom), Premature(p, dom), Reached(p, dom);
    Ingredients(p, dom, laws);
    MaskedRises(dom, laws, u, a, c, h, g);
    MeetNothing(dom, a);
    MeetNothing(dom, MeetFacts(dom, a, map[]));
    MeetsLess(dom, laws, u, a, g);
    FullIsFit(dom, laws, u, c);
    MeetsLess(dom, laws, u, a, c);
    MeetBoth(dom, laws, u, a, MeetFacts(dom, a, c), g);
  }

  lemma FullIsFit<C(!new)>(dom: Domain<C>, laws: Laws<C>, u: set<Var>, c: Fact<C>)
    requires Full(u, c)
    ensures c.Keys <= u && forall v :: v in c ==> !c[v].Top?
  {
  }

  lemma MeetNothing<C>(dom: Domain<C>, a: Fact<C>)
    ensures MeetFacts(dom, a, map[]) == a
  {
    var m := MeetFacts(dom, a, map[]);
    assert m.Keys == a.Keys;
    forall v | v in a ensures m[v] == a[v] {
      assert m[v] == MeetWith(dom, Get(a, v), Top);
    }
  }

  lemma MeetBoth<C(!new)>(dom: Domain<C>, laws: Laws<C>, u: set<Var>, f: Fact<C>, f': Fact<C>, g: Fact<C>)
    requires LawfulDomain(dom, laws) && FullSinks(laws, u, f, f') && g.Keys <= u && forall v :: v in g ==> !g[v].Top?
    ensures FullSinks(laws, u, MeetFacts(dom, f, g), MeetFacts(dom, f', g))
  {
    hide LawfulDomain;
    MeetMore(dom, u, f, g);
    MeetMore(dom, u, f', g);
    forall v | v in u ensures Sinks(laws, MeetFacts(dom, f, g)[v], MeetFacts(dom, f', g)[v]) {
      SelfSink(dom, laws, Get(g, v));
      MeetSinks(dom, laws, f[v], Get(g, v), f'[v], Get(g, v));
    }
  }

  /** What a visit does to what the edges carry. */
  lemma VisitCarries<C(!new)>(p: Cfg, dom: Domain<C>, st: State<Fact<C>>, a: Fact<C>, c: Fact<C>, g: Fact<C>, x: Fact<C>)
    requires Masked(p) && Carries(p, st.facts, a, c, g, x) && st.worklist != {} && st.worklist <= p.blocks.Keys
    requires Visit(EdgeSystem(p, ConstProblem(p, dom)), st).Ok?
    ensures var n, next := First(st.worklist), Visit(EdgeSystem(p, ConstProblem(p, dom)), st).value;
            && (n == 0 ==> Carries(p, next.facts, BlockOut(p, dom, 0, Unknown(p)), c, g, x))
            && (n == 1 ==> Carries(p, next.facts, a, c, g, Round(p, dom, Base(dom, a, c, g), x)))
            && (n == 2 ==> Carries(p, next.facts, a, c, BlockOut(p, dom, 2, c), x))
            && (n == 3 ==> Carries(p, next.facts, a, BlockOut(p, dom, 3, a), g, x))
  {
    hide BlockOut, MeetEdges, Visit, Cfg.WellFormed, Base, Unknown;
    MaskedReached(p);
    MaskedEdges(p);
    Meets(p, dom, st.facts, a, c, g, x);
    QuietVisit(p, dom, st);
  }

  /** Who is queued after a visit: what was, but for the visited block, and what its edges lead to if they carry a new
      fact. */
  lemma VisitQueues<C(!new)>(p: Cfg, dom: Domain<C>, st: State<Fact<C>>)
    requires Masked(p) && st.worklist != {} && st.worklist <= p.blocks.Keys && st.facts.Keys == Slots(p)
    requires Visit(EdgeSystem(p, ConstProblem(p, dom)), st).Ok?
    ensures var n, w, next := First(st.worklist), st.worklist, Visit(EdgeSystem(p, ConstProblem(p, dom)), st).value;
            && w - {n} <= next.worklist <= p.blocks.Keys && (forall x :: x in next.worklist ==> x < 4)
            && (forall e: nat :: e < 6 ==> On(e) in next.facts && On(e) in st.facts)
            && (0 in next.worklist ==> 0 in w - {n})
            && (2 in next.worklist ==> 2 in w - {n} || (n == 3 && next.facts[On(2)] != st.facts[On(2)]))
            && (3 in next.worklist ==> 3 in w - {n} || (n == 0 && next.facts[On(1)] != st.facts[On(1)]))
            && (n == 1 ==> (1 in next.worklist <==> next.facts[On(5)] != st.facts[On(5)]))
            && (n == 2 && next.facts[On(4)] != st.facts[On(4)] ==> 1 in next.worklist)
            && (n == 3 && next.facts[On(2)] != st.facts[On(2)] ==> 2 in next.worklist)
            && (n == 3 && next.facts[On(3)] != st.facts[On(3)] ==> 1 in next.worklist)
  {
    hide BlockOut, MeetEdges, Visit, Cfg.WellFormed, Masked, WokenBy, First;
    MaskedReached(p);
    MaskedEdges(p);
    MaskedIs(p);
    QuietVisit(p, dom, st);
    var n, next := First(st.worklist), Visit(EdgeSystem(p, ConstProblem(p, dom)), st).value;
    forall e: nat | e < 6 ensures On(e) in next.facts && On(e) in st.facts {
      assert e in p.edges && next.facts[On(e)] == next.facts[On(e)];
    }
    MaskedWakes(p, n, st.facts, next.facts);
  }

  lemma MaskedIs(p: Cfg)
    requires Masked(p)
    ensures p.WellFormed() && (forall e: nat :: e < 6 ==> e in p.edges) && forall n: nat :: n in p.blocks <==> n < 4
    ensures p.edges[2].source == 3 && p.edges[2].target == 2 && p.edges[3].source == 3 && p.edges[3].target == 1
    ensures p.edges[4].source == 2 && p.edges[4].target == 1 && p.edges[5].source == 1 && p.edges[5].target == 1
    ensures forall e :: e in p.edges ==> On(e) in Slots(p)
  {
  }

  lemma MaskedWakes<C>(p: Cfg, n: BlockId, before: map<Slot, Fact<C>>, after: map<Slot, Fact<C>>)
    requires Masked(p) && forall e: nat :: e < 6 ==> On(e) in before && On(e) in after
    ensures !WokenBy(p, n, before, after, 0)
    ensures WokenBy(p, n, before, after, 2) ==> n == 3 && after[On(2)] != before[On(2)]
    ensures WokenBy(p, n, before, after, 3) ==> n == 0 && after[On(1)] != before[On(1)]
    ensures n == 1 && WokenBy(p, n, before, after, 1) ==> after[On(5)] != before[On(5)]
  {
    hide Cfg.WellFormed, Upstream;
    MaskedEdges(p);
  }

  ghost function Spare<C>(p: Cfg, laws: Laws<C>, st: State<Fact<C>>): nat
    requires On(5) in st.facts
  {
    var u, x := Mentioned(p), st.facts[On(5)];
    if 2 in st.worklist || 3 in st.worklist then FactRoom(laws, u, x)
    else if FactRoom(laws, u, x) <= FactRoom(laws, u, map[]) then FactRoom(laws, u, map[]) - FactRoom(laws, u, x) else 0
  }

  /** The visiting order of the blocks that are not on the cycle. */
  const ORDER: seq<BlockId> := [0, 3, 2]

  lemma OrderFalls(w: set<BlockId>, w': set<BlockId>, n: BlockId)
    requires (n == 0 || n == 3 || n == 2) && n in w && n !in w'
    requires n != 0 ==> (0 in w <==> 0 in w')
    requires n == 2 ==> (3 in w <==> 3 in w')
    ensures Code(ORDER, w') < Code(ORDER, w)
  {
    hide Code;
    CodeFalls(ORDER, w, w', if n == 0 then 0 else if n == 3 then 1 else 2);
  }

  lemma OrderSame(w: set<BlockId>, w': set<BlockId>)
    requires (0 in w <==> 0 in w') && (2 in w <==> 2 in w') && (3 in w <==> 3 in w')
    ensures Code(ORDER, w') == Code(ORDER, w)
  {
    hide Code;
    CodeSame(ORDER, w, w');
  }

  lemma RoomBelow<C(!new)>(dom: Domain<C>, laws: Laws<C>, u: set<Var>, x: Fact<C>)
    requires LawfulDomain(dom, laws) && (x == map[] || Full(u, x))
    ensures FactRoom(laws, u, x) <= FactRoom(laws, u, map[])
  {
    hide LawfulDomain;
    assert FactLeq(laws, u, map[], x);
    if x != map[] {
      FactRoomShrinks(dom, laws, u, map[], x);
    }
  }

  /** A visit of block 1 goes on turning, with less to spare, or takes it off the worklist. */
  lemma VisitTurns<C(!new)>(p: Cfg, dom: Domain<C>, laws: Laws<C>, st: State<Fact<C>>)
    requires Masked(p) && LawfulDomain(dom, laws) && Turning(p, dom, laws, st) && st.worklist != {} && First(st.worklist) == 1
    requires Visit(EdgeSystem(p, ConstProblem(p, dom)), st).Ok?
    ensures var next := Visit(EdgeSystem(p, ConstProblem(p, dom)), st).value;
            && Turning(p, dom, laws, next) && Code(ORDER, next.worklist) == Code(ORDER, st.worklist)
            && (Spare(p, laws, next) < Spare(p, laws, st) || (Spare(p, laws, next) == Spare(p, laws, st) && |next.worklist| < |st.worklist|))
  {
    hide LawfulDomain, Visit, Base, Round, Entered, Later, Premature, Reached, FactRoom, Masked, Turns, Code, MeetFacts, First;
    var two, three, x := 2 in st.worklist, 3 in st.worklist, st.facts[On(5)];
    var next := Visit(EdgeSystem(p, ConstProblem(p, dom)), st).value;
    VisitCarries(p, dom, st, Entered(p, dom), if three then map[] else Later(p, dom),
                 if two && three then map[] else if two || three then Premature(p, dom) else Reached(p, dom), x);
    VisitQueues(p, dom, st);
    TurnsOn(p, dom, laws, BaseAt(p, dom, two, three), two || three, 1 in st.worklist, x, 1 in next.worklist);
    OrderSame(st.worklist, next.worklist);
    TurnSpares(p, dom, laws, BaseAt(p, dom, two, three), two || three, 1 in st.worklist, x);
    QueueFalls(st.worklist, next.worklist);
  }

  lemma QueueFalls(w: set<BlockId>, w': set<BlockId>)
    requires 1 in w && 0 !in w && (2 in w' ==> 2 in w) && (3 in w' ==> 3 in w) && 0 !in w' && forall x :: x in w' ==> x < 4
    ensures 1 !in w' ==> |w'| < |w|
  {
    if 1 !in w' {
      forall x | x in w' ensures x in w - {1} {
        assert x == 0 || x == 1 || x == 2 || x == 3;
      }
      assert w == (w - {1}) + {1};
      Subset(w', w - {1});
    }
  }

  lemma Subset(a: set<BlockId>, b: set<BlockId>)
    requires a <= b
    ensures |a| <= |b|
  {
    assert b == a + (b - a);
  }

  lemma TurnSpares<C(!new)>(p: Cfg, dom: Domain<C>, laws: Laws<C>, base: Fact<C>, falls: bool, queued: bool, x: Fact<C>)
    requires LawfulDomain(dom, laws) && Turns(p, dom, laws, base, falls, queued, x)
    ensures var u, x' := Mentioned(p), Round(p, dom, base, x);
            && FactRoom(laws, u, x) <= FactRoom(laws, u, map[]) && FactRoom(laws, u, x') <= FactRoom(laws, u, map[])
            && (x' != x && falls ==> FactRoom(laws, u, x') < FactRoom(laws, u, x))
            && (x' != x && !falls ==> FactRoom(laws, u, x) < FactRoom(laws, u, x'))
  {
    hide LawfulDomain, Round, FactRoom, Full;
    var u, x' := Mentioned(p), Round(p, dom, base, x);
    RoundFull(p, dom, laws, base, x);
    RoomBelow(dom, laws, u, x);
    RoomBelow(dom, laws, u, x');
    if x' != x {
      if falls {
        FactRoomShrinks(dom, laws, u, x, x');
      } else {
        FactRoomShrinks(dom, laws, u, x', x);
      }
    }
  }

  /** A visit of block 2, which finds block 1 at rest. */
  lemma VisitTwo<C(!new)>(p: Cfg, dom: Domain<C>, laws: Laws<C>, st: State<Fact<C>>)
    requires Masked(p) && LawfulDomain(dom, laws) && Turning(p, dom, laws, st) && st.worklist != {} && First(st.worklist) == 2
    requires Visit(EdgeSystem(p, ConstProblem(p, dom)), st).Ok?
    ensures var next := Visit(EdgeSystem(p, ConstProblem(p, dom)), st).value;
            Turning(p, dom, laws, next) && Code(ORDER, next.worklist) < Code(ORDER, st.worklist)
  {
    hide LawfulDomain, Visit, Base, Round, Masked, Turns, BlockOut, Code, FullSinks, First;
    var three, x := 3 in st.worklist, st.facts[On(5)];
    var next := Visit(EdgeSystem(p, ConstProblem(p, dom)), st).value;
    VisitCarries(p, dom, st, Entered(p, dom), if three then map[] else Later(p, dom), if three then map[] else Premature(p, dom), x);
    VisitQueues(p, dom, st);
    OrderFalls(st.worklist, next.worklist, 2);
    BasesFollow(p, dom, laws);
    TurnsFrom(p, dom, laws, BaseAt(p, dom, true, three), true, BaseAt(p, dom, false, three), three, 1 in next.worklist, x);
  }

  /** A visit of block 3, which finds block 1 at rest and block 2 visited before its time. */
  lemma VisitThree<C(!new)>(p: Cfg, dom: Domain<C>, laws: Laws<C>, st: State<Fact<C>>)
    requires Masked(p) && LawfulDomain(dom, laws) && Turning(p, dom, laws, st) && st.worklist != {} && First(st.worklist) == 3
    requires Visit(EdgeSystem(p, ConstProblem(p, dom)), st).Ok?
    ensures var next := Visit(EdgeSystem(p, ConstProblem(p, dom)), st).value;
            Turning(p, dom, laws, next) && Code(ORDER, next.worklist) < Code(ORDER, st.worklist)
  {
    hide LawfulDomain, Visit, Base, Round, Masked, Turns, BlockOut, Code, FullSinks, First;
    var x := st.facts[On(5)];
    var next := Visit(EdgeSystem(p, ConstProblem(p, dom)), st).value;
    VisitCarries(p, dom, st, Entered(p, dom), map[], Premature(p, dom), x);
    VisitQueues(p, dom, st);
    OrderFalls(st.worklist, next.worklist, 3);
    BasesFollow(p, dom, laws);
    if 2 in next.worklist {
      TurnsFrom(p, dom, laws, BaseAt(p, dom, false, true), true, BaseAt(p, dom, true, false), true, 1 in next.worklist, x);
    } else {
      assert Later(p, dom) == map[];
      assert BaseAt(p, dom, false, false) == BaseAt(p, dom, false, true);
      EitherWay(p, dom, laws, BaseAt(p, dom, false, true), 1 in next.worklist, x);
    }
  }

  /** A fact at rest neither falls nor rises. */
  lemma EitherWay<C(!new)>(p: Cfg, dom: Domain<C>, laws: Laws<C>, base: Fact<C>, queued: bool, x: Fact<C>)
    requires LawfulDomain(dom, laws) && Turns(p, dom, laws, base, true, false, x)
    ensures Turns(p, dom, laws, base, false, queued, x)
  {
  }

  /** After its first visit, which is the entry's, the solve turns. */
  lemma StartsTurning<C(!new)>(p: Cfg, dom: Domain<C>, laws: Laws<C>)
    requires Masked(p) && LawfulDomain(dom, laws)
    requires Visit(EdgeSystem(p, ConstProblem(p, dom)), Initial(EdgeSystem(p, ConstProblem(p, dom)), p.blocks.Keys)).Ok?
    ensures Initial(EdgeSystem(p, ConstProblem(p, dom)), p.blocks.Keys).worklist != {}
    ensures Turning(p, dom, laws, Visit(EdgeSystem(p, ConstProblem(p, dom)), Initial(EdgeSystem(p, ConstProblem(p, dom)), p.blocks.Keys)).value)
  {
    hide LawfulDomain, Visit, Base, Round, Turns, BlockOut, Unknown, Masked, Carries, Initial;
    var st := Initial(EdgeSystem(p, ConstProblem(p, dom)), p.blocks.Keys);
    StartsWith(p, dom);
    VisitCarries(p, dom, st, map[], map[], map[], map[]);
    VisitQueues(p, dom, st);
    StartsFalling(p, dom, laws);
    OwnFact(p, Visit(EdgeSystem(p, ConstProblem(p, dom)), st).value.facts, Entered(p, dom), map[], map[], map[]);
  }

  lemma StartsWith<C(!new)>(p: Cfg, dom: Domain<C>)
    requires Masked(p)
    ensures var st := Initial(EdgeSystem(p, ConstProblem(p, dom)), p.blocks.Keys);
            && Carries(p, st.facts, map[], map[], map[], map[]) && st.facts.Keys == Slots(p) && st.worklist == p.blocks.Keys
            && 0 in st.worklist && 1 in st.worklist && 2 in st.worklist && 3 in st.worklist && First(st.worklist) == 0
  {
    hide Masked, First, Initial, Slots;
    MaskedIs(p);
    FirstIsZero(p.blocks.Keys);
    InitialFacts(p, dom);
    forall e: nat | e < 6 ensures On(e) in Slots(p) {
      assert e in p.edges;
    }
  }

  lemma InitialFacts<C(!new)>(p: Cfg, dom: Domain<C>)
    ensures var st := Initial(EdgeSystem(p, ConstProblem(p, dom)), p.blocks.Keys);
            st.worklist == p.blocks.Keys && st.facts.Keys == Slots(p) && forall s :: s in st.facts ==> st.facts[s] == map[]
  {
  }

  lemma FirstIsZero(w: set<nat>)
    requires 0 in w
    ensures First(w) == 0
  {
  }

  lemma OwnFact<C>(p: Cfg, m: map<Slot, Fact<C>>, a: Fact<C>, c: Fact<C>, g: Fact<C>, x: Fact<C>)
    requires Carries(p, m, a, c, g, x)
    ensures On(5) in m && m[On(5)] == x
  {
  }

  lemma StartsFalling<C(!new)>(p: Cfg, dom: Domain<C>, laws: Laws<C>)
    requires LawfulDomain(dom, laws)
    ensures Turns(p, dom, laws, BaseAt(p, dom, true, true), true, true, map[])
  {
    hide LawfulDomain, Round;
    Ingredients(p, dom, laws);
    FullBase(dom, Mentioned(p), Entered(p, dom), map[], map[]);
    RoundFull(p, dom, laws, BaseAt(p, dom, true, true), map[]);
  }

  lemma {:induction false} TurnsOut<C(!new)>(p: Cfg, dom: Domain<C>, laws: Laws<C>, k: nat, st: State<Fact<C>>) returns (enough: nat)
    requires Masked(p) && LawfulDomain(dom, laws) && Turning(p, dom, laws, st)
    requires RunFor(EdgeSystem(p, ConstProblem(p, dom)), p.blocks.Keys, k) == Ok(st)
    ensures Ends(EdgeSystem(p, ConstProblem(p, dom)), p.blocks.Keys, enough)
    decreases Code(ORDER, st.worklist), Spare(p, laws, st), |st.worklist|
  {
    hide LawfulDomain, Visit, Masked, Turning, Code, Spare;
    var sys := EdgeSystem(p, ConstProblem(p, dom));
    enough := k;
    if st.worklist != {} {
      MaskedIs(p);
      assert RunFor(sys, p.blocks.Keys, k + 1) == Visit(sys, st);
      RunKeys(p, dom, p.blocks.Keys, k + 1);
      var n := TurningNext(p, dom, laws, st);
      if n == 1 {
        VisitTurns(p, dom, laws, st);
      } else if n == 2 {
        VisitTwo(p, dom, laws, st);
      } else {
        VisitThree(p, dom, laws, st);
      }
      TurningSpares(p, dom, laws, Visit(sys, st).value);
      enough := TurnsOut(p, dom, laws, k + 1, Visit(sys, st).value);
    }
  }

  lemma TurningNext<C(!new)>(p: Cfg, dom: Domain<C>, laws: Laws<C>, st: State<Fact<C>>) returns (n: BlockId)
    requires Masked(p) && Turning(p, dom, laws, st) && st.worklist != {}
    ensures n == First(st.worklist) && (n == 1 || n == 2 || n == 3) && On(5) in st.facts
  {
    hide Masked, Turns, Carries, First;
    MaskedIs(p);
    n := First(st.worklist);
  }

  lemma TurningSpares<C(!new)>(p: Cfg, dom: Domain<C>, laws: Laws<C>, st: State<Fact<C>>)
    requires Turning(p, dom, laws, st)
    ensures On(5) in st.facts
  {
  }

  /** On this graph every solve ends, over every lawful domain and whatever the blocks hold. */
  lemma MaskedEnds<C(!new)>(p: Cfg, dom: Domain<C>, laws: Laws<C>) returns (enough: nat)
    requires Masked(p) && LawfulDomain(dom, laws)
    ensures Ends(EdgeSystem(p, ConstProblem(p, dom)), ReachableBlocks(p), enough)
  {
    hide LawfulDomain, Visit, Turning;
    var sys := EdgeSystem(p, ConstProblem(p, dom));
    MaskedReached(p);
    MaskedIs(p);
    var st := Initial(sys, p.blocks.Keys);
    assert 0 in p.blocks;
    RunKeys(p, dom, p.blocks.Keys, 1);
    assert RunFor(sys, p.blocks.Keys, 0) == Ok(st);
    assert RunFor(sys, p.blocks.Keys, 1) == Visit(sys, st);
    StartsTurning(p, dom, laws);
    enough := TurnsOut(p, dom, laws, 1, Visit(sys, st).value);
  }

  /** Such a graph. */
  function Sample(): Cfg {
    Cfg(0, 4, map[0 := [], 1 := [], 2 := [], 3 := []],
        map[0 := Edge(0, 1, Fallthrough), 1 := Edge(0, 3, Fallthrough), 2 := Edge(3, 2, Fallthrough), 3 := Edge(3, 1, Fallthrough),
            4 := Edge(2, 1, Fallthrough), 5 := Edge(1, 1, Fallthrough)],
        map[0 := [0, 1], 1 := [5], 2 := [4], 3 := [2, 3]], map[0 := [], 1 := [0, 3, 4, 5], 2 := [2], 3 := [1]])
  }

  ghost predicate Drawn(p: Cfg) {
    && p.entry == 0 && p.bound == 4 && (forall n: nat :: n in p.blocks <==> n < 4) && (forall e: nat :: e in p.edges <==> e < 6)
    && (forall n: nat :: n in p.out <==> n < 4) && (forall n: nat :: n in p.inc <==> n < 4)
    && Joins(p, 0, 0, 1) && Joins(p, 1, 0, 3) && Joins(p, 2, 3, 2) && Joins(p, 3, 3, 1) && Joins(p, 4, 2, 1) && Joins(p, 5, 1, 1)
    && p.out[0] == [0, 1] && p.out[1] == [5] && p.out[2] == [4] && p.out[3] == [2, 3]
    && p.inc[0] == [] && p.inc[1] == [0, 3, 4, 5] && p.inc[2] == [2] && p.inc[3] == [1]
  }

  lemma SampleDrawn()
    ensures Drawn(Sample())
  {
  }

  lemma DrawnEdges(p: Cfg)
    requires Drawn(p)
    ensures forall e :: e in p.edges ==>
              && p.edges[e].source in p.blocks && p.edges[e].target in p.blocks
              && e in p.out[p.edges[e].source] && e in p.inc[p.edges[e].target]
  {
    assert 0 in p.inc[1] && 3 in p.inc[1] && 4 in p.inc[1] && 5 in p.inc[1] && 0 in p.out[0] && 1 in p.out[0] && 2 in p.out[3] && 3 in p.out[3];
    forall e | e in p.edges
      ensures p.edges[e].source in p.blocks && p.edges[e].target in p.blocks
      ensures e in p.out[p.edges[e].source] && e in p.inc[p.edges[e].target]
    {
      assert e == 0 || e == 1 || e == 2 || e == 3 || e == 4 || e == 5;
    }
  }

  lemma DrawnRows(p: Cfg)
    requires Drawn(p)
    ensures forall b, i :: b in p.out && 0 <= i < |p.out[b]| ==> p.out[b][i] in p.edges && p.edges[p.out[b][i]].source == b
    ensures forall b, i :: b in p.inc && 0 <= i < |p.inc[b]| ==> p.inc[b][i] in p.edges && p.edges[p.inc[b][i]].target == b
  {
    forall b, i | b in p.out && 0 <= i < |p.out[b]| ensures p.out[b][i] in p.edges && p.edges[p.out[b][i]].source == b {
      assert b == 0 || b == 1 || b == 2 || b == 3;
    }
    forall b, i | b in p.inc && 0 <= i < |p.inc[b]| ensures p.inc[b][i] in p.edges && p.edges[p.inc[b][i]].target == b {
      assert b == 0 || b == 1 || b == 2 || b == 3;
    }
  }

  /** `EarlyAcyclic` is not necessary. */
  lemma AcyclicNotNeeded<C(!new)>(dom: Domain<C>, laws: Laws<C>) returns (enough: nat)
    requires LawfulDomain(dom, laws)
    ensures Masked(Sample()) && !EarlyAcyclic(Sample()) && Ends(EdgeSystem(Sample(), ConstProblem(Sample(), dom)), ReachableBlocks(Sample()), enough)
  {
    hide LawfulDomain, Ends, EarlyAcyclic, ReachableBlocks, Sample, Drawn, Masked;
    SampleDrawn();
    DrawnMasked(Sample());
    MaskedLeadsRound(Sample());
    enough := MaskedEnds(Sample(), dom, laws);
  }

  lemma DrawnMasked(p: Cfg)
    requires Drawn(p)
    ensures Masked(p)
  {
    DrawnEdges(p);
    DrawnRows(p);
  }
}
