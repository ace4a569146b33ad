/** Graphs on which constant propagation need not end: a ring of blocks that are all visited, and have come to rest, before
    anything enters it. */
module LateRings {
  import opened Wrappers
  import opened Sequences
  import opened Program
  import opened Trails
  import opened Iteration
  import opened EdgeFixpoint
  import opened Constants
  import opened ConstantPropagation
  import opened EarlyBlocks
  import opened ConstantTermination
  import opened ConstantTiming
  import opened ExactConstants
  import opened PatternFacts

  /** The index before `i`, going round. */
  function Prev(n: nat, i: nat): nat
    requires i < n
  {
    if i == 0 then n - 1 else i - 1
  }

  /** A ring off the entry, each of whose blocks is entered only from the one before it and from outside, and from outside
      by nothing lower than `g`, which comes after the whole ring and enters it at its first block. */
  ghost predicate LateRing(p: Cfg, ring: seq<BlockId>, g: BlockId) {
    && p.WellFormed() && ring != [] && Unique(ring) && g !in ring && ReachableBlock(p, g) && Succ(p, g, ring[0])
    && forall i :: 0 <= i < |ring| ==> OnRing(p, ring, g, i)
  }

  ghost predicate OnRing(p: Cfg, ring: seq<BlockId>, g: BlockId, i: nat)
    requires i < |ring|
  {
    && ring[i] != p.entry && ring[i] < g && ReachableBlock(p, ring[i]) && Succ(p, ring[Prev(|ring|, i)], ring[i])
    && forall e :: e in p.edges && p.edges[e].target == ring[i] && ReachableBlock(p, p.edges[e].source) ==>
         p.edges[e].source == ring[Prev(|ring|, i)] || (p.edges[e].source !in ring && p.edges[e].source >= g)
  }

  function Presetting(): seq<Inst> { [Literal(T), Literal(X), Literal(Y), Literal(J), Forgetting(K)] }

  function Turning(): seq<Inst> { [Copying(T, X), Either(X, Y, K), Both(Y, T, J), Literal(K)] }

  function CodeOf(ring: seq<BlockId>, n: BlockId): seq<Inst> {
    if ring != [] && n == ring[0] then Turning() else if n in ring then [] else Presetting()
  }

  /** The first block of the ring computes, the others pass on what they get, and blocks off the ring preset everything. */
  function Relay(p: Cfg, ring: seq<BlockId>): Cfg {
    p.(blocks := map n | n in p.blocks :: CodeOf(ring, n))
  }

  ghost predicate Relays(q: Cfg, ring: seq<BlockId>, g: BlockId) {
    LateRing(q, ring, g) && forall n {:trigger q.blocks[n]} :: n in q.blocks ==> q.blocks[n] == CodeOf(ring, n)
  }

  function Every(): set<Var> { {X, Y, T, J, K} }

  /** What the blocks off the ring send. */
  function Given(): Fact<Value> { Pattern(Every(), {K}) }

  /** What the ring makes of nothing, after so many turns: `X` comes to be known, `Y` does not. */
  function Idle(turns: nat): Fact<Value> {
    if turns == 0 then map[]
    else Pattern({T, X, Y, K}, if turns == 1 then {T, X, Y} else if turns == 2 then {T, Y} else {Y})
  }

  /** One of `X` and `Y` is known, and `J` is. */
  predicate Token(f: Fact<Value>) {
    Fives(f) && f.Keys == Every() && J !in Lost(f) && (X in Lost(f) <==> Y !in Lost(f))
  }

  predicate Has(f: Fact<Value>, v: Var) { v in f && f[v] == Const(5) }

  function FiveIf(b: bool): ConstValue<Value> { if b then Const(5) else Bottom }

  /** What the first block makes of a fact. */
  function Turned(f: Fact<Value>): Fact<Value> {
    f[T := FiveIf(Has(f, X))][X := FiveIf(Has(f, Y) || Has(f, K))][Y := FiveIf(Has(f, X) && Has(f, J))][K := Const(5)]
  }

  lemma StepEither(d: Var, a: Var, b: Var, f: Fact<Value>)
    requires Fives(f)
    ensures StepFact(Exact(), Either(d, a, b), f) == f[d := FiveIf(Has(f, a) || Has(f, b))]
  {
    var inst := Either(d, a, b);
    assert inst.defs == [d] && inst.uses == [a, b];
    assert FoldExact(inst, Known(f)) == if Has(f, a) || Has(f, b) then Some((d, 5)) else None;
  }

  lemma StepBoth(d: Var, a: Var, b: Var, f: Fact<Value>)
    requires Fives(f)
    ensures StepFact(Exact(), Both(d, a, b), f) == f[d := FiveIf(Has(f, a) && Has(f, b))]
  {
    var inst := Both(d, a, b);
    assert inst.defs == [d] && inst.uses == [a, b];
    assert FoldExact(inst, Known(f)) == if Has(f, a) && Has(f, b) then Some((d, 5)) else None;
  }

  lemma StepForgetting(d: Var, f: Fact<Value>)
    ensures StepFact(Exact(), Forgetting(d), f) == f[d := Bottom]
  {
    assert Forgetting(d).defs == [d];
  }

  lemma StepKeep(d: Var, s: Var, f: Fact<Value>)
    requires Fives(f)
    ensures StepFact(Exact(), Copying(d, s), f) == f[d := FiveIf(Has(f, s))]
  {
    StepCopy(d, s, f);
  }

  lemma TurningTurns(f: Fact<Value>)
    requires Fives(f)
    ensures FactAt(Exact(), Turning(), f, 4) == Turned(f)
  {
    hide StepFact;
    var f1 := f[T := FiveIf(Has(f, X))];
    var f2 := f1[X := FiveIf(Has(f, Y) || Has(f, K))];
    var f3 := f2[Y := FiveIf(Has(f, X) && Has(f, J))];
    StepKeep(T, X, f);
    StepEither(X, Y, K, f1);
    StepBoth(Y, T, J, f2);
    StepLiteral(K, f3);
    assert FactAt(Exact(), Turning(), f, 1) == f1;
    assert FactAt(Exact(), Turning(), f, 2) == f2;
    assert FactAt(Exact(), Turning(), f, 3) == f3;
  }

  lemma PresettingSets(f: Fact<Value>)
    requires f.Keys <= Every()
    ensures FactAt(Exact(), Presetting(), f, 5) == Given()
  {
    hide StepFact;
    var f1 := f[T := Const(5)];
    var f2 := f1[X := Const(5)];
    var f3 := f2[Y := Const(5)];
    var f4 := f3[J := Const(5)];
    StepLiteral(T, f);
    StepLiteral(X, f1);
    StepLiteral(Y, f2);
    StepLiteral(J, f3);
    StepForgetting(K, f4);
    assert FactAt(Exact(), Presetting(), f, 1) == f1;
    assert FactAt(Exact(), Presetting(), f, 2) == f2;
    assert FactAt(Exact(), Presetting(), f, 3) == f3;
    assert FactAt(Exact(), Presetting(), f, 4) == f4;
    SameFact(f4[K := Bottom], Given());
  }

  /** Turning nothing settles with `X` known and `Y` lost. */
  lemma TurnsIdle(turns: nat)
    requires turns <= 3
    ensures Fives(Idle(turns)) && Turned(Idle(turns)) == Idle(if turns < 3 then turns + 1 else 3)
  {
    SameFact(Turned(Idle(turns)), Idle(if turns < 3 then turns + 1 else 3));
  }

  lemma IdleRests(turns: nat)
    requires turns < 3
    ensures Turned(Idle(turns)) != Idle(turns)
  {
    TurnsIdle(turns);
    assert K in Idle(1);
    assert Idle(1)[X] == Bottom && Idle(2)[X] == Const(5);
    assert Idle(2)[T] == Bottom && Idle(3)[T] == Const(5);
  }

  /** Turning a token hands it from one variable to the other, once `K` is lost. */
  lemma TurnsToken(f: Fact<Value>)
    requires Token(f) && K in Lost(f)
    ensures Token(Turned(f)) && (X in Lost(Turned(f)) <==> X !in Lost(f))
  {
  }

  /** The program has no departing edge, and speaks of nothing else. */
  lemma RelayMentions(q: Cfg, ring: seq<BlockId>, g: BlockId)
    requires Relays(q, ring, g)
    ensures Mentioned(q) <= Every() && NoDeparture(q)
  {
    hide LateRing;
    forall v | v in Mentioned(q) ensures v in Every() {
      var b, i :| b in q.blocks && 0 <= i < |q.blocks[b]| && v in q.blocks[b][i].uses + q.blocks[b][i].defs;
      Simple(q.blocks[b], i);
    }
    forall e | e in q.edges ensures !Throws(q, q.edges[e].source) {
      var b := q.edges[e].source;
      forall i | 0 <= i < |Insts(q, b)| ensures !Insts(q, b)[i].mayUnwind {
        assert q.blocks[b] == Insts(q, b);
        Simple(q.blocks[b], i);
      }
    }
  }

  lemma Simple(insts: seq<Inst>, i: nat)
    requires (insts == Turning() || insts == Presetting() || insts == []) && i < |insts|
    ensures !insts[i].mayUnwind && forall v :: v in insts[i].uses + insts[i].defs ==> v in Every()
  {
  }

  /** What comes in from outside, if anything, met with what the ring carries, if anything. */
  function Sum(x: Fact<Value>, given: bool, own: bool): Fact<Value> {
    Pattern((if given then Every() else {}) + (if own then x.Keys else {}),
            (if given then {K} else {}) + (if own then Lost(x) else {}))
  }

  lemma SumIs(x: Fact<Value>, given: bool, own: bool)
    requires Fives(x)
    ensures var f := Sum(x, given, own);
            && Fives(f) && f.Keys == (if given then Every() else {}) + (if own then x.Keys else {})
            && Lost(f) == (if given then {K} else {}) + (if own then Lost(x) else {})
  {
  }

  lemma SumMeets(x: Fact<Value>, given: bool, own: bool, given': bool, own': bool)
    requires Fives(x)
    ensures MeetFacts(Exact(), Sum(x, given, own), Sum(x, given', own')) == Sum(x, given || given', own || own')
  {
    hide Sum, MeetFacts, Fives, Lost;
    SumIs(x, given, own);
    SumIs(x, given', own');
    SumIs(x, given || given', own || own');
    FivesMeet(Sum(x, given, own), Sum(x, given', own'));
    SamePattern(MeetFacts(Exact(), Sum(x, given, own), Sum(x, given', own')), Sum(x, given || given', own || own'));
  }

  lemma SumOne(x: Fact<Value>)
    requires Fives(x)
    ensures Sum(x, false, false) == map[] && Sum(x, false, true) == x && Sum(x, true, false) == Given()
  {
    hide Sum;
    SumIs(x, false, true);
    SumIs(x, true, false);
    SumIs(x, false, false);
    IsPattern(x);
    SamePattern(Sum(x, false, true), x);
    SamePattern(Sum(x, true, false), Given());
  }

  /** Some edge into `n` carries what blocks off the ring send. */
  ghost predicate GivenTo(q: Cfg, m: map<Slot, Fact<Value>>, n: BlockId) {
    exists e :: e in q.edges && q.edges[e].target == n && On(e) in m && m[On(e)] == Given()
  }

  /** What a block meets whose edges carry `x`, what blocks off the ring send, or nothing. */
  lemma {:induction false} RowSums(q: Cfg, n: BlockId, m: map<Slot, Fact<Value>>, x: Fact<Value>, k: nat) returns (given: bool, own: bool)
    requires q.WellFormed() && n != q.entry && k <= |Upstream(q, Forward, n)| && Fives(x) && x != Given()
    requires forall e :: e in q.edges && q.edges[e].target == n ==>
               On(e) in m && (m[On(e)] == map[] || m[On(e)] == Given() || m[On(e)] == x)
    ensures MeetUpTo(q, ConstProblem(q, Exact()), n, m, k) == Ok(if k == 0 then None else Some(Sum(x, given, own)))
    ensures (k == 0 ==> !given && !own) && (given ==> GivenTo(q, m, n))
    ensures forall i :: 0 <= i < k ==>
              && (m[On(Upstream(q, Forward, n)[i])] == Given() ==> given) && (m[On(Upstream(q, Forward, n)[i])] == x ==> own)
  {
    hide MeetFacts, Lost, Fives, Sum, Given;
    given, own := false, false;
    if k > 0 {
      var row := Upstream(q, Forward, n);
      var f := m[On(row[k - 1])];
      given, own := RowSums(q, n, m, x, k - 1);
      assert FactOn(ConstProblem(q, Exact()), m, row[k - 1]) == f;
      assert row[k - 1] in q.edges && q.edges[row[k - 1]].target == n;
      SumOne(x);
      assert f == Sum(x, f == Given(), f == x);
      SumMeets(x, given, own, f == Given(), f == x);
      given, own := given || f == Given(), own || f == x;
    }
  }

  ghost predicate Sent(q: Cfg, m: map<Slot, Fact<Value>>, b: BlockId, f: Fact<Value>) {
    forall e {:trigger m[On(e)]} :: e in q.edges && q.edges[e].source == b ==> On(e) in m && m[On(e)] == f
  }

  /** Each block of the ring sends its fact of `s`, every other block what it presets, or nothing so far. */
  ghost predicate Carried(q: Cfg, ring: seq<BlockId>, m: map<Slot, Fact<Value>>, s: seq<Fact<Value>>) {
    && m.Keys == Slots(q) && |s| == |ring| && (forall i :: 0 <= i < |ring| ==> Sent(q, m, ring[i], s[i]))
    && forall e {:trigger m[On(e)]} :: e in q.edges && q.edges[e].source !in ring ==>
         On(e) in m && (m[On(e)] == map[] || (m[On(e)] == Given() && ReachableBlock(q, q.edges[e].source)))
  }

  /** Nothing has come out of the blocks off the ring from `g` on. */
  ghost predicate Silent(q: Cfg, ring: seq<BlockId>, m: map<Slot, Fact<Value>>, g: BlockId) {
    forall e {:trigger m[On(e)]} :: e in q.edges && q.edges[e].source !in ring && q.edges[e].source >= g ==>
      On(e) in m && m[On(e)] == map[]
  }

  /** What the edges into a block of the ring carry. */
  lemma IntoRing(q: Cfg, ring: seq<BlockId>, g: BlockId, m: map<Slot, Fact<Value>>, s: seq<Fact<Value>>, i: nat, e: EdgeId)
    requires Relays(q, ring, g) && Carried(q, ring, m, s) && i < |ring| && e in q.edges && q.edges[e].target == ring[i]
    ensures On(e) in m && (m[On(e)] == map[] || m[On(e)] == Given() || m[On(e)] == s[Prev(|ring|, i)])
    ensures m[On(e)] == Given() != s[Prev(|ring|, i)] ==> q.edges[e].source !in ring && q.edges[e].source >= g
  {
    hide Given, ReachableBlock, Cfg.WellFormed;
    GivenSomething();
    assert OnRing(q, ring, g, i);
    var b := q.edges[e].source;
    if b in ring {
      var j :| 0 <= j < |ring| && ring[j] == b;
      assert OnRing(q, ring, g, j) && Sent(q, m, ring[j], s[j]);
      assert Sent(q, m, ring[Prev(|ring|, i)], s[Prev(|ring|, i)]);
      assert On(e) in Slots(q) && m[On(e)] == m[On(e)];
    } else {
      assert On(e) in Slots(q) && m[On(e)] == m[On(e)];
    }
  }

  lemma RingLive(q: Cfg, ring: seq<BlockId>, g: BlockId, i: nat)
    requires LateRing(q, ring, g) && i < |ring|
    ensures q.WellFormed() && ring[i] != q.entry && ring[i] < g && ring[i] in q.blocks && ring[i] in ReachableBlocks(q)
    ensures g in q.blocks && g in ReachableBlocks(q) && g !in ring && Succ(q, ring[Prev(|ring|, i)], ring[i]) && Succ(q, g, ring[0])
  {
    assert OnRing(q, ring, g, i);
    ReachableLive(q);
  }

  /** What a block of the ring meets: what the one before it sends, and what comes in from outside. */
  lemma RingEnters(q: Cfg, ring: seq<BlockId>, g: BlockId, m: map<Slot, Fact<Value>>, s: seq<Fact<Value>>, i: nat) returns (given: bool)
    requires Relays(q, ring, g) && Carried(q, ring, m, s) && i < |ring|
    requires Fives(s[Prev(|ring|, i)]) && s[Prev(|ring|, i)] != Given()
    ensures MeetEdges(q, ConstProblem(q, Exact()), ring[i], m) == Ok(Sum(s[Prev(|ring|, i)], given, true))
    ensures given ==> !Silent(q, ring, m, g)
    ensures i == 0 && Sent(q, m, g, Given()) ==> given
  {
    hide Fives, Given, Sum, Relays, MeetUpTo, ReachableBlock, Idle;
    var n, x, row := ring[i], s[Prev(|ring|, i)], Upstream(q, Forward, ring[i]);
    assert LateRing(q, ring, g) by { RelaysLate(q, ring, g); }
    RingLive(q, ring, g, i);
    forall e | e in q.edges && q.edges[e].target == n
      ensures On(e) in m && (m[On(e)] == map[] || m[On(e)] == Given() || m[On(e)] == x)
    {
      IntoRing(q, ring, g, m, s, i, e);
    }
    var own;
    given, own := RowSums(q, n, m, x, |row|);
    var a :| a in q.edges && q.edges[a].source == ring[Prev(|ring|, i)] && q.edges[a].target == n;
    var j := IndexIn(q, a);
    assert Sent(q, m, ring[Prev(|ring|, i)], x) && m[On(a)] == x;
    if given {
      var e :| e in q.edges && q.edges[e].target == n && On(e) in m && m[On(e)] == Given();
      IntoRing(q, ring, g, m, s, i, e);
      GivenSomething();
    }
    if i == 0 && Sent(q, m, g, Given()) {
      var b :| b in q.edges && q.edges[b].source == g && q.edges[b].target == n;
      var l := IndexIn(q, b);
      assert m[On(b)] == Given();
    }
  }

  lemma RelaysLate(q: Cfg, ring: seq<BlockId>, g: BlockId)
    requires Relays(q, ring, g)
    ensures LateRing(q, ring, g)
  {
  }

  lemma GivenSomething()
    ensures Given() != map[]
  {
    assert X in Given();
  }

  lemma IndexIn(q: Cfg, e: EdgeId) returns (j: nat)
    requires q.WellFormed() && e in q.edges
    ensures j < |Upstream(q, Forward, q.edges[e].target)| && Upstream(q, Forward, q.edges[e].target)[j] == e
  {
    var row := Upstream(q, Forward, q.edges[e].target);
    assert e in row;
    j :| 0 <= j < |row| && row[j] == e;
  }

  /** What the blocks make of what they meet. */
  lemma RingSends(q: Cfg, ring: seq<BlockId>, g: BlockId, i: nat, f: Fact<Value>)
    requires Relays(q, ring, g) && i < |ring| && Fives(f)
    ensures BlockOut(q, Exact(), ring[i], f) == if i == 0 then Turned(f) else f
  {
    RingLive(q, ring, g, i);
    hide LateRing, Turned, FactAt, Fives;
    assert Insts(q, ring[i]) == CodeOf(ring, ring[i]);
    if i == 0 {
      TurningTurns(f);
    } else {
      assert ring[0] != ring[i] by { RingDiffers(q, ring, g, i); }
      NothingDone(f);
    }
  }

  lemma NothingDone(f: Fact<Value>)
    ensures FactAt(Exact(), [], f, 0) == f
  {
  }

  lemma RingDiffers(q: Cfg, ring: seq<BlockId>, g: BlockId, i: nat)
    requires LateRing(q, ring, g) && 0 < i < |ring|
    ensures ring[0] != ring[i]
  {
  }

  lemma OthersSend(q: Cfg, ring: seq<BlockId>, g: BlockId, m: map<Slot, Fact<Value>>, n: BlockId)
    requires Relays(q, ring, g) && n in ReachableBlocks(q) && n !in ring && KeysWithin(Mentioned(q), m)
    requires MeetEdges(q, ConstProblem(q, Exact()), n, m).Ok?
    ensures ReachableBlock(q, n) && BlockOut(q, Exact(), n, MeetEdges(q, ConstProblem(q, Exact()), n, m).value) == Given()
  {
    RelayMentions(q, ring, g);
    hide ReachableBlock, Mentioned, FactAt, Given;
    MetKeys(q, Exact(), m, n, |Upstream(q, Forward, n)|);
    assert n in q.blocks && Insts(q, n) == Presetting() by { RingLive(q, ring, g, 0); ReachableLive(q); }
    PresettingSets(MeetEdges(q, ConstProblem(q, Exact()), n, m).value);
  }

  ghost predicate IsIdle(f: Fact<Value>) { exists turns {:trigger Idle(turns)} :: turns <= 3 && f == Idle(turns) }

  /** Before `g` is visited nothing has entered the ring. */
  ghost predicate Waiting(q: Cfg, ring: seq<BlockId>, g: BlockId, st: State<Fact<Value>>, s: seq<Fact<Value>>) {
    && Carried(q, ring, st.facts, s) && Silent(q, ring, st.facts, g) && g in st.worklist
    && forall i :: 0 <= i < |ring| ==> IsIdle(s[i])
  }

  /** From then on tokens go round. */
  ghost predicate Going(q: Cfg, ring: seq<BlockId>, g: BlockId, st: State<Fact<Value>>, s: seq<Fact<Value>>) {
    && Carried(q, ring, st.facts, s) && Sent(q, st.facts, g, Given())
    && forall i :: 0 <= i < |ring| ==> s[i] == Idle(3) || Token(s[i])
  }

  ghost predicate Running(q: Cfg, ring: seq<BlockId>, g: BlockId, st: State<Fact<Value>>) {
    && st.worklist <= ReachableBlocks(q)
    && ((exists s :: Waiting(q, ring, g, st, s)) || exists s :: Going(q, ring, g, st, s))
  }

  /** Facts of either kind are none of those from outside. */
  lemma Kinds(f: Fact<Value>)
    ensures IsIdle(f) ==> Fives(f) && f != Given() && Sum(f, false, true) == f && IsIdle(Turned(f))
    ensures Token(f) || f == Idle(3) ==> Fives(f) && f != Given() && Sum(f, false, true) == f
  {
    assert Lost(Given()) == {K} && Given().Keys == Every();
    if IsIdle(f) {
      var turns: nat :| turns <= 3 && f == Idle(turns);
      TurnsIdle(turns);
      assert J !in Idle(turns);
      SumOne(f);
    }
    if Token(f) || f == Idle(3) {
      assert Y in Lost(f) || X in Lost(f);
      SumOne(f);
    }
  }

  /** What enters the ring from outside makes a token of what goes round it. */
  lemma EnteredToken(f: Fact<Value>)
    requires Token(f) || f == Idle(3)
    ensures var t := Sum(f, true, true); Token(t) && K in Lost(t) && (X in Lost(t) <==> X in Lost(f))
  {
    assert f == Idle(3) ==> Lost(f) == {Y};
    Kinds(f);
    SumIs(f, true, true);
  }

  /** A block that is not queued is at rest. */
  lemma RestsAt(q: Cfg, k: nat, n: BlockId)
    requires q.WellFormed() && n in ReachableBlocks(q) && RunFor(EdgeSystem(q, ConstProblem(q, Exact())), ReachableBlocks(q), k).Ok?
    requires n !in RunFor(EdgeSystem(q, ConstProblem(q, Exact())), ReachableBlocks(q), k).value.worklist
    ensures var facts := RunFor(EdgeSystem(q, ConstProblem(q, Exact())), ReachableBlocks(q), k).value.facts;
            facts.Keys == Slots(q) && n in q.blocks && EquationsAt(q, ConstProblem(q, Exact()), facts, n)
  {
    hide EquationsAt, Settled, Wired, ReachableBlock;
    var sys := EdgeSystem(q, ConstProblem(q, Exact()));
    ReachableLive(q);
    EdgeWired(q, ConstProblem(q, Exact()));
    RunBalanced(sys, ReachableBlocks(q), k);
    SettledMeansEquations(q, ConstProblem(q, Exact()), RunFor(sys, ReachableBlocks(q), k).value.facts, n);
  }

  /** A block of the ring at rest sends what it makes of the one before it. */
  lemma RingAtRest(q: Cfg, ring: seq<BlockId>, g: BlockId, m: map<Slot, Fact<Value>>, s: seq<Fact<Value>>, i: nat) returns (given: bool)
    requires Relays(q, ring, g) && Carried(q, ring, m, s) && i < |ring|
    requires ring[i] in q.blocks && EquationsAt(q, ConstProblem(q, Exact()), m, ring[i])
    requires Fives(s[Prev(|ring|, i)]) && s[Prev(|ring|, i)] != Given()
    ensures var f := Sum(s[Prev(|ring|, i)], given, true); s[i] == if i == 0 then Turned(f) else f
    ensures (given ==> !Silent(q, ring, m, g)) && (i == 0 && Sent(q, m, g, Given()) ==> given)
  {
    hide Relays, Fives, Given, Sum, Turned, BlockOut, MeetEdges, EquationsAt, ReachableBlock;
    assert LateRing(q, ring, g) by { RelaysLate(q, ring, g); }
    RelayMentions(q, ring, g);
    given := RingEnters(q, ring, g, m, s, i);
    SumIs(s[Prev(|ring|, i)], given, true);
    RingSends(q, ring, g, i, Sum(s[Prev(|ring|, i)], given, true));
    var j := if i + 1 < |ring| then i + 1 else 0;
    assert Prev(|ring|, j) == i;
    RingLive(q, ring, g, j);
    var e :| e in q.edges && q.edges[e].source == ring[i] && q.edges[e].target == ring[j];
    assert Sent(q, m, ring[i], s[i]);
    AtRest(q, Exact(), m, ring[i], e);
  }

  /** A ring at rest before anything has entered it sends what turning nothing settles with. */
  lemma {:induction false} IdleRing(q: Cfg, ring: seq<BlockId>, g: BlockId, m: map<Slot, Fact<Value>>, s: seq<Fact<Value>>, i: nat)
    requires Relays(q, ring, g) && Carried(q, ring, m, s) && Silent(q, ring, m, g) && i < |ring|
    requires forall j :: 0 <= j < |ring| ==>
               IsIdle(s[j]) && ring[j] in q.blocks && EquationsAt(q, ConstProblem(q, Exact()), m, ring[j])
    ensures s[i] == s[0] && (i == |ring| - 1 ==> s[0] == Idle(3))
  {
    hide Relays, Carried, Silent, EquationsAt, Idle, Turned, Fives, Given, Sum;
    assert |s| == |ring| by { CarriedLength(q, ring, m, s); }
    assert IsIdle(s[Prev(|ring|, i)]);
    Kinds(s[Prev(|ring|, i)]);
    if i > 0 {
      var given := RingAtRest(q, ring, g, m, s, i);
      IdleRing(q, ring, g, m, s, i - 1);
    }
    if i == |ring| - 1 {
      assert IsIdle(s[i]);
      Kinds(s[i]);
      var given := RingAtRest(q, ring, g, m, s, 0);
      var turns: nat :| turns <= 3 && s[i] == Idle(turns);
      if turns < 3 {
        IdleRests(turns);
      }
    }
  }

  lemma CarriedLength(q: Cfg, ring: seq<BlockId>, m: map<Slot, Fact<Value>>, s: seq<Fact<Value>>)
    requires Carried(q, ring, m, s)
    ensures |s| == |ring| && m.Keys == Slots(q)
  {
  }

  /** What a visit of a block of the ring changes. */
  lemma RingVisit(q: Cfg, ring: seq<BlockId>, g: BlockId, m: map<Slot, Fact<Value>>, m': map<Slot, Fact<Value>>, s: seq<Fact<Value>>,
                  i: nat, out: Fact<Value>)
    requires LateRing(q, ring, g) && Carried(q, ring, m, s) && i < |ring| && Changed(q, m, m', ring[i], out)
    ensures Carried(q, ring, m', s[i := out])
    ensures (Silent(q, ring, m, g) ==> Silent(q, ring, m', g)) && (Sent(q, m, g, Given()) ==> Sent(q, m', g, Given()))
  {
    hide OnRing, Given, Cfg.WellFormed, ReachableBlock;
    forall j | 0 <= j < |ring| ensures Sent(q, m', ring[j], s[i := out][j]) {
      assert Sent(q, m, ring[j], s[j]);
      assert ring[j] == ring[i] ==> j == i;
      Resent(q, m, m', ring[i], out, ring[j], s[j]);
    }
    Quiet(q, ring, m, m', ring[i], out);
    if Sent(q, m, g, Given()) {
      Resent(q, m, m', ring[i], out, g, Given());
    }
  }

  lemma Resent(q: Cfg, m: map<Slot, Fact<Value>>, m': map<Slot, Fact<Value>>, n: BlockId, out: Fact<Value>, b: BlockId, f: Fact<Value>)
    requires Sent(q, m, b, f) && Changed(q, m, m', n, out)
    ensures Sent(q, m', b, if b == n then out else f)
  {
    forall e | e in q.edges && q.edges[e].source == b ensures On(e) in m' && m'[On(e)] == if b == n then out else f {
      assert On(e) in m && m[On(e)] == f;
    }
  }

  /** Edges of blocks off the ring, but for `n`, carry what they carried. */
  lemma Quiet(q: Cfg, ring: seq<BlockId>, m: map<Slot, Fact<Value>>, m': map<Slot, Fact<Value>>, n: BlockId, out: Fact<Value>)
    requires Changed(q, m, m', n, out)
    ensures forall e {:trigger m'[On(e)]} :: e in q.edges && q.edges[e].source != n && On(e) in m ==> On(e) in m' && m'[On(e)] == m[On(e)]
  {
  }

  /** What a visit of another block changes. */
  lemma OtherVisit(q: Cfg, ring: seq<BlockId>, g: BlockId, m: map<Slot, Fact<Value>>, m': map<Slot, Fact<Value>>, s: seq<Fact<Value>>, n: BlockId)
    requires Carried(q, ring, m, s) && n !in ring && ReachableBlock(q, n) && Changed(q, m, m', n, Given())
    ensures Carried(q, ring, m', s)
    ensures n < g && Silent(q, ring, m, g) ==> Silent(q, ring, m', g)
    ensures n == g || Sent(q, m, g, Given()) ==> Sent(q, m', g, Given())
  {
    hide Given, ReachableBlock;
    forall j | 0 <= j < |ring| ensures Sent(q, m', ring[j], s[j]) {
      assert Sent(q, m, ring[j], s[j]);
      Resent(q, m, m', n, Given(), ring[j], s[j]);
    }
    Quiet(q, ring, m, m', n, Given());
    if Sent(q, m, g, Given()) {
      Resent(q, m, m', n, Given(), g, Given());
    }
    forall e | e in q.edges && q.edges[e].source !in ring
      ensures On(e) in m' && (m'[On(e)] == map[] || (m'[On(e)] == Given() && ReachableBlock(q, q.edges[e].source)))
    {
      assert On(e) in m && m[On(e)] == m[On(e)];
    }
  }

  /** What is known of the visit after `k` others. */
  lemma NextVisit(q: Cfg, ring: seq<BlockId>, g: BlockId, k: nat, st: State<Fact<Value>>) returns (next: State<Fact<Value>>)
    requires Relays(q, ring, g) && RunFor(EdgeSystem(q, ConstProblem(q, Exact())), ReachableBlocks(q), k) == Ok(st)
    requires st.worklist != {} && st.worklist <= ReachableBlocks(q) && st.facts.Keys == Slots(q)
    ensures RunFor(EdgeSystem(q, ConstProblem(q, Exact())), ReachableBlocks(q), k + 1) == Ok(next)
    ensures st.worklist - {First(st.worklist)} <= next.worklist <= ReachableBlocks(q) && KeysWithin(Mentioned(q), st.facts)
    ensures var met := MeetEdges(q, ConstProblem(q, Exact()), First(st.worklist), st.facts);
            met.Ok? && Changed(q, st.facts, next.facts, First(st.worklist), BlockOut(q, Exact(), First(st.worklist), met.value))
  {
    hide Relays, Visit, MeetEdges, ReachableBlock, BlockOut, Mentioned;
    var sys := EdgeSystem(q, ConstProblem(q, Exact()));
    assert LateRing(q, ring, g) by { RelaysLate(q, ring, g); }
    RelayMentions(q, ring, g);
    ReachableLive(q);
    RunKeys(q, Exact(), ReachableBlocks(q), k);
    RunKeys(q, Exact(), ReachableBlocks(q), k + 1);
    next := Visit(sys, st).value;
    QuietVisit(q, Exact(), st);
  }

  lemma WaitsOn(q: Cfg, ring: seq<BlockId>, g: BlockId, k: nat, st: State<Fact<Value>>, next: State<Fact<Value>>, s: seq<Fact<Value>>)
    requires Relays(q, ring, g) && RunFor(EdgeSystem(q, ConstProblem(q, Exact())), ReachableBlocks(q), k) == Ok(st)
    requires st.worklist <= ReachableBlocks(q) && Waiting(q, ring, g, st, s) && KeysWithin(Mentioned(q), st.facts)
    requires st.worklist - {First(st.worklist)} <= next.worklist <= ReachableBlocks(q)
    requires var met := MeetEdges(q, ConstProblem(q, Exact()), First(st.worklist), st.facts);
             met.Ok? && Changed(q, st.facts, next.facts, First(st.worklist), BlockOut(q, Exact(), First(st.worklist), met.value))
    ensures Running(q, ring, g, next)
  {
    hide Relays, Carried, Silent, Sent, IsIdle, Idle, Turned, Sum, Given, Fives, BlockOut, MeetEdges, Changed, ReachableBlock, Mentioned;
    var n := First(st.worklist);
    assert LateRing(q, ring, g) by { RelaysLate(q, ring, g); }
    CarriedLength(q, ring, st.facts, s);
    if n in ring {
      var i :| 0 <= i < |ring| && ring[i] == n;
      var x := s[Prev(|ring|, i)];
      Kinds(x);
      var given := RingEnters(q, ring, g, st.facts, s, i);
      RingSends(q, ring, g, i, x);
      var out := if i == 0 then Turned(x) else x;
      RingVisit(q, ring, g, st.facts, next.facts, s, i, out);
      RingLive(q, ring, g, i);
      assert Waiting(q, ring, g, next, s[i := out]);
    } else {
      OthersSend(q, ring, g, st.facts, n);
      OtherVisit(q, ring, g, st.facts, next.facts, s, n);
      if n == g {
        Arrives(q, ring, g, k, st, s);
        assert Going(q, ring, g, next, s);
      } else {
        assert Waiting(q, ring, g, next, s);
      }
    }
  }

  /** When it is `g`'s turn, the whole ring is at rest. */
  lemma Arrives(q: Cfg, ring: seq<BlockId>, g: BlockId, k: nat, st: State<Fact<Value>>, s: seq<Fact<Value>>)
    requires Relays(q, ring, g) && RunFor(EdgeSystem(q, ConstProblem(q, Exact())), ReachableBlocks(q), k) == Ok(st)
    requires Waiting(q, ring, g, st, s) && First(st.worklist) == g
    ensures forall i :: 0 <= i < |ring| ==> s[i] == Idle(3)
  {
    hide Relays, Carried, Silent, IsIdle, Idle, EquationsAt, ReachableBlock;
    assert LateRing(q, ring, g) by { RelaysLate(q, ring, g); }
    CarriedLength(q, ring, st.facts, s);
    forall j | 0 <= j < |ring| ensures ring[j] in q.blocks && EquationsAt(q, ConstProblem(q, Exact()), st.facts, ring[j]) {
      RingLive(q, ring, g, j);
      RestsAt(q, k, ring[j]);
    }
    IdleRing(q, ring, g, st.facts, s, |ring| - 1);
    forall i | 0 <= i < |ring| ensures s[i] == Idle(3) {
      IdleRing(q, ring, g, st.facts, s, i);
    }
  }

  lemma GoesOn(q: Cfg, ring: seq<BlockId>, g: BlockId, st: State<Fact<Value>>, next: State<Fact<Value>>, s: seq<Fact<Value>>)
    requires Relays(q, ring, g) && st.worklist != {} && st.worklist <= ReachableBlocks(q)
    requires Going(q, ring, g, st, s) && KeysWithin(Mentioned(q), st.facts) && next.worklist <= ReachableBlocks(q)
    requires var met := MeetEdges(q, ConstProblem(q, Exact()), First(st.worklist), st.facts);
             met.Ok? && Changed(q, st.facts, next.facts, First(st.worklist), BlockOut(q, Exact(), First(st.worklist), met.value))
    ensures Running(q, ring, g, next)
  {
    hide Relays, Carried, Sent, Token, Idle, Turned, Sum, Given, Fives, BlockOut, MeetEdges, Changed, ReachableBlock, Mentioned;
    var n := First(st.worklist);
    assert LateRing(q, ring, g) by { RelaysLate(q, ring, g); }
    CarriedLength(q, ring, st.facts, s);
    if n in ring {
      var i :| 0 <= i < |ring| && ring[i] == n;
      var x := s[Prev(|ring|, i)];
      Kinds(x);
      var given := RingEnters(q, ring, g, st.facts, s, i);
      var f := Sum(x, given, true);
      EnteredToken(x);
      Kinds(f);
      TurnsAgain(f);
      RingSends(q, ring, g, i, f);
      RingVisit(q, ring, g, st.facts, next.facts, s, i, if i == 0 then Turned(f) else f);
      assert Going(q, ring, g, next, s[i := if i == 0 then Turned(f) else f]);
    } else {
      OthersSend(q, ring, g, st.facts, n);
      OtherVisit(q, ring, g, st.facts, next.facts, s, n);
      assert Going(q, ring, g, next, s);
    }
  }

  lemma TurnsAgain(f: Fact<Value>)
    ensures Token(f) && K in Lost(f) ==> Token(Turned(f)) && (X in Lost(Turned(f)) <==> X !in Lost(f))
  {
    if Token(f) && K in Lost(f) {
      TurnsToken(f);
    }
  }

  /** Tokens that go round are never at rest: the first block hands over what the others pass on. */
  lemma {:induction false} SameSide(q: Cfg, ring: seq<BlockId>, g: BlockId, m: map<Slot, Fact<Value>>, s: seq<Fact<Value>>, i: nat)
    requires Relays(q, ring, g) && Carried(q, ring, m, s) && Sent(q, m, g, Given()) && i < |ring|
    requires forall j :: 0 <= j < |ring| ==>
               (s[j] == Idle(3) || Token(s[j])) && ring[j] in q.blocks && EquationsAt(q, ConstProblem(q, Exact()), m, ring[j])
    ensures (X in Lost(s[i]) <==> X in Lost(s[0])) && (X in Lost(s[0]) <==> X !in Lost(s[|ring| - 1]))
  {
    hide Relays, Carried, Sent, EquationsAt, Idle, Turned, Fives, Given, Sum, Token, Lost;
    CarriedLength(q, ring, m, s);
    var x := s[Prev(|ring|, i)];
    Kinds(x);
    EnteredToken(x);
    var given := RingAtRest(q, ring, g, m, s, i);
    TurnsAgain(Sum(x, true, true));
    if i > 0 {
      SameSide(q, ring, g, m, s, i - 1);
    }
  }

  lemma NothingYet(q: Cfg, ring: seq<BlockId>, g: BlockId)
    requires Relays(q, ring, g)
    ensures Running(q, ring, g, Initial(EdgeSystem(q, ConstProblem(q, Exact())), ReachableBlocks(q)))
  {
    hide Relays, ReachableBlock, Carried, Silent, Idle;
    var st := Initial(EdgeSystem(q, ConstProblem(q, Exact())), ReachableBlocks(q));
    var s := seq(|ring|, _ => map[]);
    assert LateRing(q, ring, g) by { RelaysLate(q, ring, g); }
    RingLive(q, ring, g, 0);
    NothingCarried(q, ring, g, st.facts, s);
    NoTurns();
    assert Waiting(q, ring, g, st, s);
  }

  lemma NoTurns()
    ensures Idle(0) == map[]
  {
  }

  lemma NothingCarried(q: Cfg, ring: seq<BlockId>, g: BlockId, m: map<Slot, Fact<Value>>, s: seq<Fact<Value>>)
    requires m.Keys == Slots(q) && |s| == |ring| && (forall x :: x in m ==> m[x] == map[]) && forall i :: 0 <= i < |s| ==> s[i] == map[]
    ensures Carried(q, ring, m, s) && Silent(q, ring, m, g)
  {
    forall e | e in q.edges ensures On(e) in m && m[On(e)] == map[] {
      assert On(e) in Slots(q);
    }
  }

  lemma {:induction false} KeepsRunning(q: Cfg, ring: seq<BlockId>, g: BlockId, k: nat)
    requires Relays(q, ring, g)
    ensures RunFor(EdgeSystem(q, ConstProblem(q, Exact())), ReachableBlocks(q), k).Ok?
    ensures Running(q, ring, g, RunFor(EdgeSystem(q, ConstProblem(q, Exact())), ReachableBlocks(q), k).value)
  {
    hide Relays, Carried, Visit, ReachableBlock, BlockOut, MeetEdges, Changed, Mentioned;
    if k == 0 {
      NothingYet(q, ring, g);
    } else {
      KeepsRunning(q, ring, g, k - 1);
      var st := RunFor(EdgeSystem(q, ConstProblem(q, Exact())), ReachableBlocks(q), k - 1).value;
      if st.worklist != {} {
        if s :| Waiting(q, ring, g, st, s) {
          CarriedLength(q, ring, st.facts, s);
          var next := NextVisit(q, ring, g, k - 1, st);
          WaitsOn(q, ring, g, k - 1, st, next, s);
        } else {
          var s :| Going(q, ring, g, st, s);
          CarriedLength(q, ring, st.facts, s);
          var next := NextVisit(q, ring, g, k - 1, st);
          GoesOn(q, ring, g, st, next, s);
        }
      }
    }
  }

  lemma NeverRests(q: Cfg, ring: seq<BlockId>, g: BlockId, enough: nat)
    requires Relays(q, ring, g)
    ensures !Ends(EdgeSystem(q, ConstProblem(q, Exact())), ReachableBlocks(q), enough)
  {
    hide Relays, Carried, Silent, Sent, IsIdle, Idle, Token, Given, EquationsAt, ReachableBlock;
    KeepsRunning(q, ring, g, enough);
    var st := RunFor(EdgeSystem(q, ConstProblem(q, Exact())), ReachableBlocks(q), enough).value;
    if st.worklist == {} {
      var s :| Going(q, ring, g, st, s);
      assert LateRing(q, ring, g) by { RelaysLate(q, ring, g); }
      CarriedLength(q, ring, st.facts, s);
      forall j | 0 <= j < |ring| ensures ring[j] in q.blocks && EquationsAt(q, ConstProblem(q, Exact()), st.facts, ring[j]) {
        RingLive(q, ring, g, j);
        RestsAt(q, enough, ring[j]);
      }
      SameSide(q, ring, g, st.facts, s, |ring| - 1);
    }
  }

  lemma RelayOk(p: Cfg, ring: seq<BlockId>, g: BlockId)
    requires LateRing(p, ring, g)
    ensures SameShape(p, Relay(p, ring)) && Relays(Relay(p, ring), ring, g)
    ensures Relay(p, ring).Contracts() && FolderSound(Relay(p, ring), Exact(), Meant(), MachineSemantics())
  {
    hide FoldSound, LawfulDomain;
    var q := Relay(p, ring);
    ShapeReach(p, q);
    forall i | 0 <= i < |ring| ensures OnRing(q, ring, g, i) {
      assert OnRing(p, ring, g, i);
    }
    ExactLawful();
    forall b, i | b in q.blocks && 0 <= i < |q.blocks[b]|
      ensures q.blocks[b][i].Ok() && FoldSound(Exact(), Meant(), MachineSemantics(), q.blocks[b][i])
    {
      assert q.blocks[b] == CodeOf(ring, b);
      assert q.blocks[b][i].transfer.NoTransfer? && |q.blocks[b][i].defs| == 1;
      FoldRight(q.blocks[b][i]);
    }
  }

  /** On a graph with such a ring there is a program, over a domain that keeps every law and with a fold that is right about
      it, that no number of visits settles: at rest with `X` known and `Y` not, the ring is entered with a fact that lets
      each decide the other, and what is known goes from one to the other for ever. */
  lemma NeverEnds(p: Cfg, ring: seq<BlockId>, g: BlockId, enough: nat)
    requires LateRing(p, ring, g)
    ensures var q := Relay(p, ring);
            && SameShape(p, q) && q.WellFormed() && q.Contracts() && LawfulDomain(Exact(), ExactLaws())
            && FolderSound(q, Exact(), Meant(), MachineSemantics())
            && !Ends(EdgeSystem(q, ConstProblem(q, Exact())), ReachableBlocks(q), enough)
  {
    hide LawfulDomain, FolderSound, Ends, ReachableBlocks, SameShape, OnRing, Relay, Cfg.Contracts;
    RelayOk(p, ring, g);
    ExactLawful();
    NeverRests(Relay(p, ring), ring, g, enough);
  }
}
