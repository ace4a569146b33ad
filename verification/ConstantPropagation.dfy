/** The three-level constant lattice over a domain of constants, and facts as maps over variables. */
module Constants {
  import opened Wrappers
  import opened Program
  import opened Iteration

  datatype ConstValue<C> = Top | Const(value: C) | Bottom

  /** What the consumer supplies: `fold` names the one definition an instruction makes constant, and `meet` the
      greatest constant below two others, when there is one. */
  datatype Domain<!C> = Domain(fold: (Inst, map<Var, C>) -> Option<(Var, C)>, meet: (C, C) -> Option<C>)

  function MeetWith<C>(dom: Domain<C>, a: ConstValue<C>, b: ConstValue<C>): ConstValue<C> {
    match (a, b)
    case (Top, x) => x
    case (x, Top) => x
    case (Const(x), Const(y)) => (match dom.meet(x, y) case Some(c) => Const(c) case None => Bottom)
    case (_, _) => Bottom
  }

  /** An absent variable is Top. */
  type Fact<C> = map<Var, ConstValue<C>>

  function Get<C>(f: Fact<C>, v: Var): ConstValue<C> { if v in f then f[v] else Top }

  function MeetFacts<C>(dom: Domain<C>, left: Fact<C>, right: Fact<C>): Fact<C> {
    map v | v in left.Keys + right.Keys :: MeetWith(dom, Get(left, v), Get(right, v))
  }

  /** The variables whose value is known. */
  function Known<C>(f: Fact<C>): map<Var, C> { map v | v in f && f[v].Const? :: f[v].value }

  /** The folded definition is constant; every other definition of the instruction is overdefined. */
  function DefValue<C>(folded: Option<(Var, C)>, d: Var): ConstValue<C> {
    if folded.Some? && folded.value.0 == d then Const(folded.value.1) else Bottom
  }

  function Definitions<C>(folded: Option<(Var, C)>, defs: seq<Var>): Fact<C> {
    map d | d in defs :: DefValue(folded, d)
  }

  function StepFact<C>(dom: Domain<C>, inst: Inst, f: Fact<C>): Fact<C> {
    f + Definitions(dom.fold(inst, Known(f)), inst.defs)
  }

  /** `g` is what an instruction leaves of `f`: of what it defines, the one definition its fold answers for has that
      constant and every other is overdefined; what it does not define is as it was. */
  ghost predicate Leaves<C>(dom: Domain<C>, inst: Inst, f: Fact<C>, g: Fact<C>) {
    && g.Keys == f.Keys + Elems(inst.defs)
    && var folded := dom.fold(inst, map v | v in f && f[v].Const? :: f[v].value);
       forall v :: v in g ==>
         g[v] == if v !in inst.defs then f[v]
                 else match folded
                      case Some((d, c)) => (if v == d then Const(c) else Bottom)
                      case None => Bottom
  }

  /** `facts` are the facts before each instruction of a block and at its end. */
  ghost predicate Replayed<C>(dom: Domain<C>, insts: seq<Inst>, facts: seq<Fact<C>>) {
    |facts| == |insts| + 1 && forall i :: 0 <= i < |insts| ==> Leaves(dom, insts[i], facts[i], facts[i + 1])
  }

  lemma StepLeaves<C>(dom: Domain<C>, inst: Inst, f: Fact<C>)
    ensures Leaves(dom, inst, f, StepFact(dom, inst, f))
  {
    assert Known(f) == map v | v in f && f[v].Const? :: f[v].value;
  }

  function FactsOf<C>(dom: Domain<C>, insts: seq<Inst>, f: Fact<C>): seq<Fact<C>> {
    seq(|insts| + 1, i requires 0 <= i <= |insts| => FactAt(dom, insts, f, i))
  }

  lemma FactsReplayed<C>(dom: Domain<C>, insts: seq<Inst>, f: Fact<C>)
    ensures Replayed(dom, insts, FactsOf(dom, insts, f))
  {
    forall i | 0 <= i < |insts| ensures Leaves(dom, insts[i], FactAt(dom, insts, f, i), FactAt(dom, insts, f, i + 1)) {
      StepLeaves(dom, insts[i], FactAt(dom, insts, f, i));
    }
  }

  lemma NextDefinition<C>(f: Fact<C>, folded: Option<(Var, C)>, defs: seq<Var>, k: nat)
    requires k < |defs|
    ensures f + Definitions(folded, defs[..k + 1]) == (f + Definitions(folded, defs[..k]))[defs[k] := DefValue(folded, defs[k])]
  {
    TakeNext(defs, k);
  }

  lemma KnownUpdate<C>(f: Fact<C>, d: Var, value: ConstValue<C>)
    ensures Known(f[d := value]) == if value.Const? then Known(f)[d := value.value] else Known(f) - {d}
  {
  }

  /** The fact before instruction `i` of a block entered with `f`. */
  function FactAt<C>(dom: Domain<C>, insts: seq<Inst>, f: Fact<C>, i: nat): Fact<C>
    requires i <= |insts|
  {
    if i == 0 then f else StepFact(dom, insts[i - 1], FactAt(dom, insts, f, i - 1))
  }

  /** The meet of the facts before each throwing instruction among the first `i`. */
  function Departing<C>(dom: Domain<C>, insts: seq<Inst>, f: Fact<C>, i: nat): (r: Option<Fact<C>>)
    requires i <= |insts|
    ensures r.Some? <==> exists k :: 0 <= k < i && insts[k].mayUnwind
  {
    if i == 0 then None
    else
      var earlier := Departing(dom, insts, f, i - 1);
      if !insts[i - 1].mayUnwind then earlier
      else Some(match earlier
                case None => FactAt(dom, insts, f, i - 1)
                case Some(e) => MeetFacts(dom, e, FactAt(dom, insts, f, i - 1)))
  }

  /** The meet, variable by variable, in place. */
  method MeetInto<C(==)>(dom: Domain<C>, left: Fact<C>, right: Fact<C>) returns (result: Fact<C>)
    ensures result == MeetFacts(dom, left, right)
  {
    result := left;
    var rest := right.Keys;
    while rest != {}
      invariant rest <= right.Keys && result.Keys == left.Keys + (right.Keys - rest)
      invariant forall v :: v in result ==>
                  result[v] == if v in right && v !in rest then MeetWith(dom, Get(left, v), right[v]) else left[v]
      decreases rest
    {
      HasMember(rest);
      var v :| v in rest;
      rest := rest - {v};
      result := result[v := MeetWith(dom, Get(result, v), right[v])];
    }
  }

  /** One instruction of a replay that tracks the known constants alongside the state. */
  method StepInPlace<C(==)>(dom: Domain<C>, inst: Inst, state: Fact<C>, known: map<Var, C>)
    returns (state': Fact<C>, known': map<Var, C>)
    requires known == Known(state)
    ensures state' == StepFact(dom, inst, state) && known' == Known(state')
    ensures Leaves(dom, inst, state, state')
  {
    StepLeaves(dom, inst, state);
    var folded := dom.fold(inst, known);
    state', known' := state, known;
    assert state + Definitions(folded, inst.defs[..0]) == state;
    for k := 0 to |inst.defs|
      invariant state' == state + Definitions(folded, inst.defs[..k]) && known' == Known(state')
    {
      var d := inst.defs[k];
      var value := DefValue(folded, d);
      NextDefinition(state, folded, inst.defs, k);
      KnownUpdate(state', d, value);
      known' := if value.Const? then known'[d := value.value] else known' - {d};
      state' := state'[d := value];
    }
    TakeAll(inst.defs);
  }

  /** The replay of one block: the fact at its end, and what an unwind before its throwing instructions carries. */
  method ReplayBlock<C(==)>(dom: Domain<C>, insts: seq<Inst>, input: Fact<C>)
    returns (out: Fact<C>, departing: Option<Fact<C>>, ghost facts: seq<Fact<C>>)
    ensures out == FactAt(dom, insts, input, |insts|) && departing == Departing(dom, insts, input, |insts|)
    ensures Replayed(dom, insts, facts) && facts[0] == input && facts[|insts|] == out
    ensures departing.Some? <==> exists k :: 0 <= k < |insts| && insts[k].mayUnwind
  {
    facts := FactsOf(dom, insts, input);
    FactsReplayed(dom, insts, input);
    var known := map v | v in input && input[v].Const? :: input[v].value;
    out, departing := input, None;
    for i := 0 to |insts|
      invariant out == FactAt(dom, insts, input, i) && known == Known(out) && departing == Departing(dom, insts, input, i)
    {
      if insts[i].mayUnwind {
        if departing.None? {
          departing := Some(out);
        } else {
          var met := MeetInto(dom, departing.value, out);
          departing := Some(met);
        }
      }
      out, known := StepInPlace(dom, insts[i], out, known);
    }
  }

  /** The laws of a domain, told by which constants say less: `weaker` is an order of height at most `top`, `meet` is
      the greatest lower bound, and knowing less never makes `fold` answer more. */
  datatype Laws<!C> = Laws(weaker: (C, C) -> bool, height: C -> nat, top: nat)

  ghost predicate KnowsLess<C>(laws: Laws<C>, k: map<Var, C>, l: map<Var, C>) {
    forall v :: v in l ==> v in k && laws.weaker(k[v], l[v])
  }

  ghost predicate LawfulDomain<C(!new)>(dom: Domain<C>, laws: Laws<C>) {
    && (forall a :: laws.weaker(a, a) && laws.height(a) <= laws.top)
    && (forall a, b :: laws.weaker(a, b) && laws.weaker(b, a) ==> a == b)
    && (forall a, b, c :: laws.weaker(a, b) && laws.weaker(b, c) ==> laws.weaker(a, c))
    && (forall a, b :: laws.weaker(a, b) && a != b ==> laws.height(b) < laws.height(a))
    && (forall a, b {:trigger dom.meet(a, b)} :: dom.meet(a, b).Some? ==>
          laws.weaker(a, dom.meet(a, b).value) && laws.weaker(b, dom.meet(a, b).value))
    && (forall a, b, c {:trigger dom.meet(a, b), laws.weaker(a, c)} :: laws.weaker(a, c) && laws.weaker(b, c) ==>
          dom.meet(a, b).Some? && laws.weaker(dom.meet(a, b).value, c))
    && (forall inst, k, l {:trigger dom.fold(inst, k), dom.fold(inst, l)} :: KnowsLess(laws, k, l) && dom.fold(inst, l).Some? ==>
          && dom.fold(inst, k).Some? && dom.fold(inst, k).value.0 == dom.fold(inst, l).value.0
          && laws.weaker(dom.fold(inst, k).value.1, dom.fold(inst, l).value.1))
  }

  function Sinks<C>(laws: Laws<C>, a: ConstValue<C>, b: ConstValue<C>): bool {
    a.Top? || b.Bottom? || (a.Const? && b.Const? && laws.weaker(a.value, b.value))
  }

  function Room<C>(laws: Laws<C>, a: ConstValue<C>): nat {
    match a
    case Top => laws.top + 2
    case Const(c) => laws.height(c) + 1
    case Bottom => 0
  }

  function ValueOrder<C>(laws: Laws<C>): Order<ConstValue<C>> {
    Order((a, b) => Sinks(laws, a, b), a => Room(laws, a))
  }

  lemma ValueOrderOk<C(!new)>(dom: Domain<C>, laws: Laws<C>)
    requires LawfulDomain(dom, laws)
    ensures IsOrder(ValueOrder(laws), Top)
  {
  }

  /** Meeting moves down from both arguments, and is monotone in them. */
  lemma MeetSinks<C(!new)>(dom: Domain<C>, laws: Laws<C>, a: ConstValue<C>, b: ConstValue<C>, c: ConstValue<C>, d: ConstValue<C>)
    requires LawfulDomain(dom, laws) && Sinks(laws, a, c) && Sinks(laws, b, d)
    ensures Sinks(laws, MeetWith(dom, a, b), MeetWith(dom, c, d))
  {
    if c.Const? && d.Const? && dom.meet(c.value, d.value).Some? {
      var low := dom.meet(c.value, d.value).value;
      assert laws.weaker(c.value, low) && laws.weaker(d.value, low);
      if a.Const? && b.Const? {
        assert laws.weaker(a.value, low) && laws.weaker(b.value, low);
      }
    }
  }

  /** Every variable of `u` is decided. */
  predicate Full<C(==)>(u: set<Var>, f: Fact<C>) {
    f.Keys == u && forall v :: v in f ==> !f[v].Top?
  }

  predicate FullSinks<C(==)>(laws: Laws<C>, u: set<Var>, f: Fact<C>, g: Fact<C>) {
    Full(u, f) && Full(u, g) && forall v :: v in u ==> Sinks(laws, f[v], g[v])
  }

  /** Below a full fact, only the fact of a block nothing has reached. */
  predicate FactLeq<C(==)>(laws: Laws<C>, u: set<Var>, f: Fact<C>, g: Fact<C>) {
    if f == map[] then g == map[] || Full(u, g) else FullSinks(laws, u, f, g)
  }

  ghost function FactRoom<C>(laws: Laws<C>, u: set<Var>, f: Fact<C>): nat {
    Headroom(ValueOrder(laws), u, map v | v in u :: Get(f, v))
  }

  ghost function FactOrder<C>(laws: Laws<C>, u: set<Var>): Order<Fact<C>> {
    Order((f, g) => FactLeq(laws, u, f, g), f => FactRoom(laws, u, f))
  }

  lemma FactOrderOk<C(!new)>(dom: Domain<C>, laws: Laws<C>, u: set<Var>)
    requires LawfulDomain(dom, laws)
    ensures IsOrder(FactOrder(laws, u), map[])
  {
    var o := FactOrder(laws, u);
    forall f, g | o.le(f, g) ensures o.le(f, f) && o.le(g, g) {
    }
    forall f, g | o.le(f, g) && o.le(g, f) ensures f == g {
      FactsEqual(dom, laws, u, f, g);
    }
    forall f, g, h | o.le(f, g) && o.le(g, h) ensures o.le(f, h) {
      FactsTrans(dom, laws, u, f, g, h);
    }
    forall f, g | o.le(f, g) && f != g ensures o.height(g) < o.height(f) {
      FactRoomShrinks(dom, laws, u, f, g);
    }
  }

  lemma FactsTrans<C(!new)>(dom: Domain<C>, laws: Laws<C>, u: set<Var>, f: Fact<C>, g: Fact<C>, h: Fact<C>)
    requires LawfulDomain(dom, laws) && FactLeq(laws, u, f, g) && FactLeq(laws, u, g, h)
    ensures FactLeq(laws, u, f, h)
  {
  }

  lemma FactsEqual<C(!new)>(dom: Domain<C>, laws: Laws<C>, u: set<Var>, f: Fact<C>, g: Fact<C>)
    requires LawfulDomain(dom, laws) && FactLeq(laws, u, f, g) && FactLeq(laws, u, g, f)
    ensures f == g
  {
    if f != map[] && g != map[] {
      assert forall v :: v in u ==> Sinks(laws, f[v], g[v]) && Sinks(laws, g[v], f[v]);
    }
  }

  lemma SameFacts<C(!new)>(dom: Domain<C>, laws: Laws<C>, u: set<Var>, f: Fact<C>, g: Fact<C>)
    requires LawfulDomain(dom, laws) && FactLeq(laws, u, f, g)
    ensures (forall v :: v in u ==> Get(f, v) == Get(g, v)) ==> f == g
  {
    if f == map[] {
      assert g != map[] ==> forall v :: v in u ==> Get(f, v) != Get(g, v);
      if u != {} {
        HasMember(u);
      }
    } else if forall v :: v in u ==> Get(f, v) == Get(g, v) {
      assert f.Keys == g.Keys;
      forall v | v in f ensures f[v] == g[v] {
        assert v in u && Get(f, v) == Get(g, v);
      }
      assert f == g;
    }
  }

  lemma FactRoomShrinks<C(!new)>(dom: Domain<C>, laws: Laws<C>, u: set<Var>, f: Fact<C>, g: Fact<C>)
    requires LawfulDomain(dom, laws) && FactLeq(laws, u, f, g) && f != g
    ensures FactRoom(laws, u, g) < FactRoom(laws, u, f)
  {
    ValueOrderOk(dom, laws);
    var (m, m') := (map v | v in u :: Get(f, v), map v | v in u :: Get(g, v));
    assert forall v :: v in u ==> Get(f, v) == m[v] && Get(g, v) == m'[v];
    SameFacts(dom, laws, u, f, g);
    HeadroomShrinks(ValueOrder(laws), Top, u, m, m');
  }

  lemma MeetFactsSink<C(!new)>(dom: Domain<C>, laws: Laws<C>, u: set<Var>, a: Fact<C>, b: Fact<C>, c: Fact<C>, d: Fact<C>)
    requires LawfulDomain(dom, laws) && FactLeq(laws, u, a, c) && FactLeq(laws, u, b, d)
    ensures FactLeq(laws, u, MeetFacts(dom, a, b), MeetFacts(dom, c, d))
    ensures Full(u, c) || Full(u, d) ==> Full(u, MeetFacts(dom, c, d))
  {
    MeetFull(dom, u, a, b);
    MeetFull(dom, u, c, d);
    forall v | v in u
      ensures Sinks(laws, Get(MeetFacts(dom, a, b), v), Get(MeetFacts(dom, c, d), v))
    {
      assert Sinks(laws, Get(a, v), Get(c, v)) && Sinks(laws, Get(b, v), Get(d, v));
      MeetSinks(dom, laws, Get(a, v), Get(b, v), Get(c, v), Get(d, v));
      assert Get(MeetFacts(dom, a, b), v) == MeetWith(dom, Get(a, v), Get(b, v));
      assert Get(MeetFacts(dom, c, d), v) == MeetWith(dom, Get(c, v), Get(d, v));
    }
  }

  /** Meeting with a full fact gives a full fact. */
  lemma MeetFull<C>(dom: Domain<C>, u: set<Var>, a: Fact<C>, b: Fact<C>)
    requires (a == map[] || Full(u, a)) && (b == map[] || Full(u, b))
    ensures MeetFacts(dom, a, b) == map[] || Full(u, MeetFacts(dom, a, b))
    ensures Full(u, a) || Full(u, b) ==> Full(u, MeetFacts(dom, a, b))
  {
  }

  lemma StepFactSinks<C(!new)>(dom: Domain<C>, laws: Laws<C>, u: set<Var>, inst: Inst, f: Fact<C>, g: Fact<C>)
    requires LawfulDomain(dom, laws) && FullSinks(laws, u, f, g) && Elems(inst.defs) <= u
    ensures FullSinks(laws, u, StepFact(dom, inst, f), StepFact(dom, inst, g))
  {
    assert KnowsLess(laws, Known(f), Known(g)) by {
      forall v | v in Known(g) ensures v in Known(f) && laws.weaker(Known(f)[v], Known(g)[v]) {
        assert Sinks(laws, f[v], g[v]);
      }
    }
    var (x, y) := (dom.fold(inst, Known(f)), dom.fold(inst, Known(g)));
    forall v | v in u ensures Sinks(laws, StepFact(dom, inst, f)[v], StepFact(dom, inst, g)[v]) {
      if v in inst.defs {
        assert Sinks(laws, DefValue(x, v), DefValue(y, v));
      }
    }
  }

  predicate DefsWithin(insts: seq<Inst>, u: set<Var>) {
    forall i :: 0 <= i < |insts| ==> Elems(insts[i].defs) <= u
  }

  lemma {:induction false} FactAtSinks<C(!new)>(dom: Domain<C>, laws: Laws<C>, u: set<Var>, insts: seq<Inst>, f: Fact<C>,
                                                g: Fact<C>, i: nat)
    requires LawfulDomain(dom, laws) && FullSinks(laws, u, f, g) && DefsWithin(insts, u) && i <= |insts|
    ensures FullSinks(laws, u, FactAt(dom, insts, f, i), FactAt(dom, insts, g, i))
  {
    if i > 0 {
      FactAtSinks(dom, laws, u, insts, f, g, i - 1);
      StepFactSinks(dom, laws, u, insts[i - 1], FactAt(dom, insts, f, i - 1), FactAt(dom, insts, g, i - 1));
    }
  }

  lemma {:induction false} DepartingSinks<C(!new)>(dom: Domain<C>, laws: Laws<C>, u: set<Var>, insts: seq<Inst>, f: Fact<C>,
                                                   g: Fact<C>, i: nat)
    requires LawfulDomain(dom, laws) && FullSinks(laws, u, f, g) && DefsWithin(insts, u) && i <= |insts|
    ensures var (x, y) := (Departing(dom, insts, f, i), Departing(dom, insts, g, i));
            x.Some? == y.Some? && (x.Some? ==> FullSinks(laws, u, x.value, y.value))
  {
    hide LawfulDomain, FullSinks, FactAt, MeetFacts, DefsWithin;
    if i > 0 {
      DepartingSinks(dom, laws, u, insts, f, g, i - 1);
      FactAtSinks(dom, laws, u, insts, f, g, i - 1);
      var (x, y) := (Departing(dom, insts, f, i - 1), Departing(dom, insts, g, i - 1));
      if x.Some? {
        FullMeets(dom, laws, u, x.value, FactAt(dom, insts, f, i - 1), y.value, FactAt(dom, insts, g, i - 1));
      }
    }
  }

  lemma FullMeets<C(!new)>(dom: Domain<C>, laws: Laws<C>, u: set<Var>, a: Fact<C>, b: Fact<C>, c: Fact<C>, d: Fact<C>)
    requires LawfulDomain(dom, laws) && FullSinks(laws, u, a, c) && FullSinks(laws, u, b, d)
    ensures FullSinks(laws, u, MeetFacts(dom, a, b), MeetFacts(dom, c, d))
  {
    MeetFull(dom, u, a, b);
    MeetFull(dom, u, c, d);
    forall v | v in u ensures Sinks(laws, MeetFacts(dom, a, b)[v], MeetFacts(dom, c, d)[v]) {
      MeetSinks(dom, laws, a[v], b[v], c[v], d[v]);
    }
  }
}

/** Constant propagation as a problem for the edge solver. */
module ConstantPropagation {
  import opened Wrappers
  import opened Program
  import opened Trails
  import opened Reachability
  import opened Iteration
  import opened EdgeFixpoint
  import opened Constants

  /** The variables the program mentions. */
  function Mentioned(p: Cfg): set<Var> {
    set b, i, v | b in p.blocks && 0 <= i < |p.blocks[b]| && v in p.blocks[b][i].uses + p.blocks[b][i].defs :: v
  }

  function Unknown<C>(p: Cfg): Fact<C> { map v | v in Mentioned(p) :: Bottom }

  /** The entry starts with every mentioned variable unknown. */
  function Boundary<C>(p: Cfg, n: nat): Result<Option<Fact<C>>, ()> {
    Ok(if n == p.entry then Some(Unknown(p)) else None)
  }

  function BlockOut<C>(p: Cfg, dom: Domain<C>, n: nat, f: Fact<C>): Fact<C> {
    FactAt(dom, Insts(p, n), f, |Insts(p, n)|)
  }

  /** An edge that departs before throws carries what was known before each of them; any other, what is known at the
      block's end. */
  function EdgeOut<C>(p: Cfg, dom: Domain<C>, e: nat, input: Fact<C>, output: Fact<C>): Fact<C> {
    if e in p.edges && Departs(p, p.edges[e]) then
      var insts := Insts(p, p.edges[e].source);
      match Departing(dom, insts, input, |insts|)
      case Some(f) => f
      case None => output
    else output
  }

  function ConstProblem<C>(p: Cfg, dom: Domain<C>): EdgeProblem<Fact<C>, ()> {
    EdgeProblem(Forward, map[], n => Boundary(p, n), (n, a, b) => Ok(MeetFacts(dom, a, b)),
                (n, f) => Ok(BlockOut(p, dom, n, f)), (e, i, o) => Ok(EdgeOut(p, dom, e, i, o)))
  }

  /** What a constant of the domain says about a value. */
  type Meaning<!C> = (C, Value) -> bool

  ghost predicate ValueHolds<C>(gamma: Meaning<C>, a: ConstValue<C>, x: Value) {
    !a.Top? && (a.Const? ==> gamma(a.value, x))
  }

  /** `f` decides every mentioned variable, no other, and is right about each in store `s`. */
  ghost predicate FactHolds<C>(p: Cfg, gamma: Meaning<C>, f: Fact<C>, s: Store) {
    f.Keys == Mentioned(p) && forall v :: v in f ==> ValueHolds(gamma, f[v], Read(s, v))
  }

  /** Meeting forgets, and never invents. */
  ghost predicate MeetSound<C(!new)>(dom: Domain<C>, gamma: Meaning<C>) {
    forall a, b, x {:trigger dom.meet(a, b), gamma(a, x)} {:trigger dom.meet(a, b), gamma(b, x)} ::
      dom.meet(a, b).Some? && (gamma(a, x) || gamma(b, x)) ==> gamma(dom.meet(a, b).value, x)
  }

  /** Whatever is known of the operands, the folded definition gets a value the folded constant describes. */
  ghost predicate FoldSound<C(!new)>(dom: Domain<C>, gamma: Meaning<C>, sem: Semantics, inst: Inst) {
    forall known, s, env {:trigger dom.fold(inst, known), ExecInst(sem, inst, s, env)} ::
      (forall v :: v in known ==> gamma(known[v], Read(s, v))) && dom.fold(inst, known).Some?
      && dom.fold(inst, known).value.0 in inst.defs ==>
        gamma(dom.fold(inst, known).value.1, Read(ExecInst(sem, inst, s, env), dom.fold(inst, known).value.0))
  }

  ghost predicate FolderSound<C(!new)>(p: Cfg, dom: Domain<C>, gamma: Meaning<C>, sem: Semantics) {
    MeetSound(dom, gamma) && forall b, i :: b in p.blocks && 0 <= i < |p.blocks[b]| ==> FoldSound(dom, gamma, sem, p.blocks[b][i])
  }

  lemma MeetValueHolds<C(!new)>(dom: Domain<C>, gamma: Meaning<C>, a: ConstValue<C>, b: ConstValue<C>, x: Value)
    requires MeetSound(dom, gamma) && ValueHolds(gamma, a, x)
    ensures ValueHolds(gamma, MeetWith(dom, a, b), x) && ValueHolds(gamma, MeetWith(dom, b, a), x)
  {
  }

  lemma MeetFactsHold<C(!new)>(p: Cfg, dom: Domain<C>, gamma: Meaning<C>, f: Fact<C>, g: Fact<C>, s: Store)
    requires MeetSound(dom, gamma) && FactHolds(p, gamma, f, s) && g.Keys <= Mentioned(p)
    ensures FactHolds(p, gamma, MeetFacts(dom, f, g), s) && FactHolds(p, gamma, MeetFacts(dom, g, f), s)
  {
    assert MeetFacts(dom, f, g).Keys == f.Keys == MeetFacts(dom, g, f).Keys;
    forall v | v in f.Keys
      ensures ValueHolds(gamma, MeetFacts(dom, f, g)[v], Read(s, v)) && ValueHolds(gamma, MeetFacts(dom, g, f)[v], Read(s, v))
    {
      assert ValueHolds(gamma, f[v], Read(s, v));
      MeetValueHolds(dom, gamma, f[v], Get(g, v), Read(s, v));
    }
  }

  /** One instruction keeps a fact right. */
  lemma StepHolds<C(!new)>(p: Cfg, dom: Domain<C>, gamma: Meaning<C>, sem: Semantics, inst: Inst, f: Fact<C>, s: Store, env: int)
    requires FoldSound(dom, gamma, sem, inst) && inst.Ok() && FactHolds(p, gamma, f, s) && Elems(inst.defs) <= Mentioned(p)
    ensures FactHolds(p, gamma, StepFact(dom, inst, f), ExecInst(sem, inst, s, env))
  {
    var next, t := StepFact(dom, inst, f), ExecInst(sem, inst, s, env);
    assert forall v :: v in Known(f) ==> ValueHolds(gamma, f[v], Read(s, v)) && gamma(Known(f)[v], Read(s, v));
    forall v | v in next ensures ValueHolds(gamma, next[v], Read(t, v)) {
      if v !in inst.defs {
        ExecOther(sem, inst, s, env, v);
        assert ValueHolds(gamma, f[v], Read(s, v));
      }
    }
  }

  lemma DefsMentioned(p: Cfg, b: BlockId)
    ensures DefsWithin(Insts(p, b), Mentioned(p))
  {
    forall i | 0 <= i < |Insts(p, b)| ensures Elems(Insts(p, b)[i].defs) <= Mentioned(p) {
      forall v | v in Insts(p, b)[i].defs ensures v in Mentioned(p) {
        assert v in p.blocks[b][i].uses + p.blocks[b][i].defs;
      }
    }
  }

  lemma {:induction false} FactAtKeys<C>(dom: Domain<C>, insts: seq<Inst>, u: set<Var>, f: Fact<C>, i: nat)
    requires i <= |insts| && DefsWithin(insts, u) && f.Keys <= u
    ensures f.Keys <= FactAt(dom, insts, f, i).Keys <= u
  {
    if i > 0 {
      FactAtKeys(dom, insts, u, f, i - 1);
      assert Elems(insts[i - 1].defs) <= u;
    }
  }

  lemma {:induction false} DepartingKeys<C>(dom: Domain<C>, insts: seq<Inst>, u: set<Var>, f: Fact<C>, i: nat)
    requires i <= |insts| && DefsWithin(insts, u) && f.Keys <= u
    ensures Departing(dom, insts, f, i).Some? ==> Departing(dom, insts, f, i).value.Keys <= u
  {
    if i > 0 {
      DepartingKeys(dom, insts, u, f, i - 1);
      FactAtKeys(dom, insts, u, f, i - 1);
    }
  }

  /** What an unwind carries is right wherever one of the throwing instructions unwinds. */
  lemma {:induction false} DepartingHolds<C(!new)>(p: Cfg, dom: Domain<C>, gamma: Meaning<C>, insts: seq<Inst>, f: Fact<C>,
                                                   k: nat, i: nat, s: Store)
    requires MeetSound(dom, gamma) && k < i <= |insts| && insts[k].mayUnwind && DefsWithin(insts, Mentioned(p))
    requires f.Keys <= Mentioned(p) && FactHolds(p, gamma, FactAt(dom, insts, f, k), s)
    ensures Departing(dom, insts, f, i).Some? && FactHolds(p, gamma, Departing(dom, insts, f, i).value, s)
  {
    hide MeetSound, FactHolds, FactAt, DefsWithin, MeetFacts;
    var earlier, here := Departing(dom, insts, f, i - 1), FactAt(dom, insts, f, i - 1);
    if k < i - 1 {
      DepartingHolds(p, dom, gamma, insts, f, k, i - 1, s);
      FactAtKeys(dom, insts, Mentioned(p), f, i - 1);
      MeetFactsHold(p, dom, gamma, earlier.value, here, s);
    } else if earlier.Some? {
      DepartingKeys(dom, insts, Mentioned(p), f, i - 1);
      MeetFactsHold(p, dom, gamma, here, earlier.value, s);
    }
  }

  ghost predicate KeysWithin<C>(u: set<Var>, m: map<Slot, Fact<C>>) {
    forall s {:trigger m[s]} :: s in m ==> m[s].Keys <= u
  }

  lemma UnknownHolds<C>(p: Cfg, gamma: Meaning<C>, s: Store)
    ensures FactHolds(p, gamma, Unknown<C>(p), s)
  {
  }

  /** The fact a block is entered with is right when one of those it meets is. */
  lemma {:induction false} MetHolds<C(!new)>(p: Cfg, dom: Domain<C>, gamma: Meaning<C>, m: map<Slot, Fact<C>>, n: BlockId,
                                             i: nat, k: nat, s: Store)
    requires MeetSound(dom, gamma) && KeysWithin(Mentioned(p), m) && k <= |Upstream(p, Forward, n)|
    requires if i == 0 then n == p.entry
             else i <= k && FactHolds(p, gamma, FactOn(ConstProblem(p, dom), m, Upstream(p, Forward, n)[i - 1]), s)
    ensures var met := MeetUpTo(p, ConstProblem(p, dom), n, m, k);
            met.Ok? && met.value.Some? && FactHolds(p, gamma, met.value.value, s)
  {
    if k == 0 {
      UnknownHolds(p, gamma, s);
    } else {
      hide FactHolds, MeetFacts, Unknown, Mentioned, MeetSound;
      var prob := ConstProblem(p, dom);
      var before, fact := MeetUpTo(p, prob, n, m, k - 1), FactOn(prob, m, Upstream(p, Forward, n)[k - 1]);
      if i < k {
        MetHolds(p, dom, gamma, m, n, i, k - 1, s);
        MeetFactsHold(p, dom, gamma, before.value.value, fact, s);
      } else {
        MetKeys(p, dom, m, n, k - 1);
        if before.value.Some? {
          MeetFactsHold(p, dom, gamma, fact, before.value.value, s);
        }
      }
    }
  }

  lemma {:induction false} MetKeys<C>(p: Cfg, dom: Domain<C>, m: map<Slot, Fact<C>>, n: BlockId, k: nat)
    requires KeysWithin(Mentioned(p), m) && k <= |Upstream(p, Forward, n)|
    ensures var met := MeetUpTo(p, ConstProblem(p, dom), n, m, k);
            met.Ok? && (met.value.Some? ==> met.value.value.Keys <= Mentioned(p))
  {
    if k > 0 {
      MetKeys(p, dom, m, n, k - 1);
    }
  }

  /** Crossing an edge, what the edge carries is right. */
  lemma EdgeHolds<C(!new)>(p: Cfg, dom: Domain<C>, gamma: Meaning<C>, facts: map<Slot, Fact<C>>, at: Pos, e: EdgeId, s: Store)
    requires p.WellFormed() && MeetSound(dom, gamma) && KeysWithin(Mentioned(p), facts)
    requires e in p.edges && LeavesVia(p, at, p.edges[e]) && EquationsAt(p, ConstProblem(p, dom), facts, at.block)
    requires at.idx <= |Insts(p, at.block)| && FactHolds(p, gamma, FactAt(dom, Insts(p, at.block), facts[In(at.block)], at.idx), s)
    ensures On(e) in facts && FactHolds(p, gamma, facts[On(e)], s)
  {
    var insts := Insts(p, at.block);
    assert e in Downstream(p, Forward, at.block);
    if Departs(p, p.edges[e]) {
      DefsMentioned(p, at.block);
      DepartingHolds(p, dom, gamma, insts, facts[In(at.block)], at.idx, |insts|, s);
    }
  }

  /** The fact of a block the run enters is right, given that what it enters along is. */
  lemma EnterHolds<C(!new)>(p: Cfg, dom: Domain<C>, gamma: Meaning<C>, facts: map<Slot, Fact<C>>, n: BlockId, e: Option<EdgeId>, s: Store)
    requires p.WellFormed() && MeetSound(dom, gamma) && KeysWithin(Mentioned(p), facts)
    requires EquationsAt(p, ConstProblem(p, dom), facts, n)
    requires match e
             case None => n == p.entry
             case Some(edge) => edge in p.edges && p.edges[edge].target == n && On(edge) in facts && FactHolds(p, gamma, facts[On(edge)], s)
    ensures FactHolds(p, gamma, facts[In(n)], s)
  {
    var row := Upstream(p, Forward, n);
    var i: nat := 0;
    if e.Some? {
      assert e.value in row;
      var j :| 0 <= j < |row| && row[j] == e.value;
      i := j + 1;
    }
    MetHolds(p, dom, gamma, facts, n, i, |row|, s);
  }

  /** At every point of every run the facts are right: through loops, multi-definition instructions and unwinds. */
  lemma ExecHolds<C(!new)>(p: Cfg, dom: Domain<C>, gamma: Meaning<C>, sem: Semantics, facts: map<Slot, Fact<C>>, a: Pos, b: Pos, s: Store, env: int)
    requires p.WellFormed() && p.Contracts() && FolderSound(p, dom, gamma, sem) && InRange(p, a) && Execs(p, a, b)
    requires In(a.block) in facts && FactHolds(p, gamma, FactAt(dom, Insts(p, a.block), facts[In(a.block)], a.idx), s)
    ensures FactHolds(p, gamma, FactAt(dom, Insts(p, a.block), facts[In(a.block)], b.idx), ExecInst(sem, InstAt(p, a), s, env))
  {
    hide Cfg.WellFormed, FactHolds, StepFact;
    var inst := InstAt(p, a);
    assert p.blocks[b.block][a.idx] == inst;
    DefsMentioned(p, b.block);
    assert Insts(p, b.block)[a.idx] == inst;
    StepHolds(p, dom, gamma, sem, inst, FactAt(dom, Insts(p, b.block), facts[In(b.block)], a.idx), s, env);
  }

  lemma {:induction false} RunHolds<C(!new)>(p: Cfg, dom: Domain<C>, gamma: Meaning<C>, sem: Semantics, facts: map<Slot, Fact<C>>, r: Run)
    requires p.WellFormed() && p.Contracts() && FolderSound(p, dom, gamma, sem) && KeysWithin(Mentioned(p), facts) && IsRun(p, r)
    requires forall n {:trigger EquationsAt(p, ConstProblem(p, dom), facts, n)} :: ReachableBlock(p, n) ==>
               EquationsAt(p, ConstProblem(p, dom), facts, n)
    ensures InRange(p, r.at) && In(r.at.block) in facts
    ensures FactHolds(p, gamma, FactAt(dom, Insts(p, r.at.block), facts[In(r.at.block)], r.at.idx), StoreOf(p, sem, r))
  {
    hide Cfg.WellFormed, FactHolds, MeetFacts, StepFact;
    RunInRange(p, r);
    var t := RunTrail(p, r);
    assert EquationsAt(p, ConstProblem(p, dom), facts, r.at.block);
    match r
    case Enter(_, s) => EnterHolds(p, dom, gamma, facts, p.entry, None, s);
    case Step(prev, at, env) =>
      RunHolds(p, dom, gamma, sem, facts, prev);
      var s := StoreOf(p, sem, prev);
      if Execs(p, prev.at, at) {
        hide FactAt;
        ExecHolds(p, dom, gamma, sem, facts, prev.at, at, s, env);
      } else {
        var e :| e in p.edges && LeavesVia(p, prev.at, p.edges[e]) && p.edges[e].target == at.block;
        var t' := RunTrail(p, prev);
        assert EquationsAt(p, ConstProblem(p, dom), facts, prev.at.block);
        EdgeHolds(p, dom, gamma, facts, prev.at, e, s);
        EnterHolds(p, dom, gamma, facts, at.block, Some(e), s);
      }
  }

  lemma ComputeKeepsKeys<C(!new)>(p: Cfg, dom: Domain<C>, n: BlockId, m: map<Slot, Fact<C>>)
    requires p.WellFormed() && n in p.blocks && KeysWithin(Mentioned(p), m)
    ensures ComputeNode(p, ConstProblem(p, dom), n, m).Ok?
    ensures KeysWithin(Mentioned(p), ComputeNode(p, ConstProblem(p, dom), n, m).value)
  {
    MetKeys(p, dom, m, n, |Upstream(p, Forward, n)|);
    FlowKeepsKeys(p, dom, n, MeetEdges(p, ConstProblem(p, dom), n, m).value);
  }

  lemma FlowKeepsKeys<C(!new)>(p: Cfg, dom: Domain<C>, n: BlockId, flowIn: Fact<C>)
    requires p.WellFormed() && n in p.blocks && flowIn.Keys <= Mentioned(p)
    ensures FromFlow(p, ConstProblem(p, dom), n, flowIn).Ok?
    ensures KeysWithin(Mentioned(p), FromFlow(p, ConstProblem(p, dom), n, flowIn).value)
  {
    hide FactAt, Departing, Mentioned, Insts, EdgesOut, BlockOut, EdgeOut;
    var prob, row, out := ConstProblem(p, dom), Downstream(p, Forward, n), BlockOut(p, dom, n, flowIn);
    DefsMentioned(p, n);
    OutKeys(p, dom, n, flowIn);
    forall i | 0 <= i < |row| ensures EdgeOut(p, dom, row[i], flowIn, out).Keys <= Mentioned(p) {
      EdgeKeys(p, dom, row[i], flowIn, out);
    }
    EdgesOutAt(prob, row, |row|, flowIn, out);
  }

  lemma OutKeys<C>(p: Cfg, dom: Domain<C>, n: BlockId, f: Fact<C>)
    requires f.Keys <= Mentioned(p)
    ensures BlockOut(p, dom, n, f).Keys <= Mentioned(p)
  {
    DefsMentioned(p, n);
    FactAtKeys(dom, Insts(p, n), Mentioned(p), f, |Insts(p, n)|);
  }

  lemma EdgeKeys<C>(p: Cfg, dom: Domain<C>, e: EdgeId, f: Fact<C>, out: Fact<C>)
    requires f.Keys <= Mentioned(p) && out.Keys <= Mentioned(p)
    ensures EdgeOut(p, dom, e, f, out).Keys <= Mentioned(p)
  {
    if e in p.edges {
      DefsMentioned(p, p.edges[e].source);
      DepartingKeys(dom, Insts(p, p.edges[e].source), Mentioned(p), f, |Insts(p, p.edges[e].source)|);
    }
  }

  /** No fact of a solve speaks of a variable the program does not mention, and no solve is rejected. */
  lemma {:induction false} RunKeys<C(!new)>(p: Cfg, dom: Domain<C>, seeds: set<nat>, k: nat)
    requires p.WellFormed() && seeds <= p.blocks.Keys
    ensures RunFor(EdgeSystem(p, ConstProblem(p, dom)), seeds, k).Ok?
    ensures KeysWithin(Mentioned(p), RunFor(EdgeSystem(p, ConstProblem(p, dom)), seeds, k).value.facts)
    ensures RunFor(EdgeSystem(p, ConstProblem(p, dom)), seeds, k).value.worklist <= p.blocks.Keys
  {
    var sys := EdgeSystem(p, ConstProblem(p, dom));
    if k > 0 {
      RunKeys(p, dom, seeds, k - 1);
      EdgeWired(p, ConstProblem(p, dom));
      RunBalanced(sys, seeds, k - 1);
      var st := RunFor(sys, seeds, k - 1).value;
      if st.worklist != {} {
        ComputeKeepsKeys(p, dom, First(st.worklist), st.facts);
        VisitBalanced(sys, seeds, st);
      }
    }
  }

  /** Constant propagation is sound. Whatever order the solve took, once it completes: on every run from the entry, each
      variable a block's entry fact calls constant holds that constant whenever the block is entered, and each one its
      exit fact calls constant holds it whenever the block has run to its end. */
  lemma ConstantsSound<C(!new)>(p: Cfg, dom: Domain<C>, gamma: Meaning<C>, sem: Semantics, reached: set<nat>,
                                limit: Option<nat>, solved: Solution<Fact<C>>, r: Run, v: Var)
    requires p.WellFormed() && p.Contracts() && FolderSound(p, dom, gamma, sem) && IsRun(p, r)
    requires reached <= p.blocks.Keys && forall b :: b in reached <==> ReachableBlock(p, b)
    requires SolveOk(EdgeSystem(p, ConstProblem(p, dom)), reached, limit, Ok(solved))
    ensures In(r.at.block) in solved.facts && Out(r.at.block) in solved.facts
    ensures r.at.idx == 0 && v in solved.facts[In(r.at.block)] && solved.facts[In(r.at.block)][v].Const? ==>
              gamma(solved.facts[In(r.at.block)][v].value, Read(StoreOf(p, sem, r), v))
    ensures r.at.idx == |Insts(p, r.at.block)| && v in solved.facts[Out(r.at.block)] && solved.facts[Out(r.at.block)][v].Const? ==>
              gamma(solved.facts[Out(r.at.block)][v].value, Read(StoreOf(p, sem, r), v))
  {
    var prob := ConstProblem(p, dom);
    SolvedEquations(p, prob, reached, limit, solved);
    RunKeys(p, dom, reached, solved.steps);
    forall n | ReachableBlock(p, n) ensures EquationsAt(p, prob, solved.facts, n) {
      assert n in reached;
    }
    RunHolds(p, dom, gamma, sem, solved.facts, r);
    var t := RunTrail(p, r);
    assert EquationsAt(p, prob, solved.facts, r.at.block);
    if r.at.idx == 0 && v in solved.facts[In(r.at.block)] {
      assert ValueHolds(gamma, solved.facts[In(r.at.block)][v], Read(StoreOf(p, sem, r), v));
    }
    if r.at.idx == |Insts(p, r.at.block)| && v in solved.facts[Out(r.at.block)] {
      assert solved.facts[Out(r.at.block)] == BlockOut(p, dom, r.at.block, solved.facts[In(r.at.block)]);
      assert ValueHolds(gamma, solved.facts[Out(r.at.block)][v], Read(StoreOf(p, sem, r), v));
    }
  }
}
