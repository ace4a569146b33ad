/** Graphs on which constant propagation need not end: a block that is visited before anything has reached it lies on a
    cycle with a block that is entered in time. */
module ConstantDivergence {
  import opened Wrappers
  import opened EdgeKinds
  import opened Program
  import opened Trails
  import opened Iteration
  import opened EdgeFixpoint
  import opened Constants
  import opened ConstantPropagation
  import opened EarlyBlocks
  import opened ConstantTermination
  import opened ConstantTiming
  import opened ExactConstants
  import opened PatternFacts

  /** Blocks `a` and `c` lead to each other but not to themselves. `a` comes first and is entered only from `c` and from
      later blocks; `c` is entered from the earlier block `d` as well. */
  ghost predicate SwingShape(p: Cfg, a: BlockId, c: BlockId, d: BlockId) {
    && p.WellFormed() && a < c && d < c && a != d && a != p.entry && c != p.entry
    && ReachableBlock(p, a) && ReachableBlock(p, d)
    && Succ(p, a, c) && Succ(p, c, a) && Succ(p, d, c) && !Succ(p, a, a) && !Succ(p, c, c)
    && forall e :: e in p.edges && p.edges[e].target == a && ReachableBlock(p, p.edges[e].source) ==> p.edges[e].source >= c
  }

  function Setting(): seq<Inst> { [Literal(X), Literal(Y), Literal(T)] }

  function Keeping(): seq<Inst> { [Copying(Y, Y)] }

  function Swapping(): seq<Inst> { [Copying(T, X), Copying(X, Y), Copying(Y, T)] }

  /** Block `a` copies `Y` onto itself, block `c` swaps `X` and `Y` through `T`, and every other block sets all three to
      five. */
  function Swing(p: Cfg, a: BlockId, c: BlockId): Cfg {
    p.(blocks := map n | n in p.blocks :: if n == a then Keeping() else if n == c then Swapping() else Setting())
  }

  lemma SwingSame(p: Cfg, a: BlockId, c: BlockId, d: BlockId)
    requires SwingShape(p, a, c, d)
    ensures SameShape(p, Swing(p, a, c)) && SwingShape(Swing(p, a, c), a, c, d)
  {
    ShapeReach(p, Swing(p, a, c));
    forall x, y ensures Succ(p, x, y) <==> Succ(Swing(p, a, c), x, y) {
    }
  }

  /** The domain keeps every law, the instructions keep their contracts, and the fold is right about each of them. */
  lemma SwingOk(p: Cfg, a: BlockId, c: BlockId)
    ensures Swing(p, a, c).Contracts()
    ensures LawfulDomain(Exact(), ExactLaws()) && FolderSound(Swing(p, a, c), Exact(), Meant(), MachineSemantics())
  {
    hide LawfulDomain, FoldSound;
    var q := Swing(p, a, c);
    ExactLawful();
    forall b, i | b in q.blocks && 0 <= i < |q.blocks[b]|
      ensures q.blocks[b][i].Ok() && FoldSound(Exact(), Meant(), MachineSemantics(), q.blocks[b][i])
    {
      assert q.blocks[b][i].transfer.NoTransfer? && |q.blocks[b][i].defs| == 1;
      FoldRight(q.blocks[b][i]);
    }
  }

  function All(): set<Var> { {X, Y, T} }

  function AllFive(): Fact<Value> { Pattern(All(), {}) }

  function Stray(): Fact<Value> { Pattern({Y}, {Y}) }

  function LeftLost(): Fact<Value> { Pattern(All(), {X}) }

  function RightLost(): Fact<Value> { Pattern(All(), {Y, T}) }

  lemma ThreeSteps(a: Inst, b: Inst, c: Inst, f: Fact<Value>)
    ensures FactAt(Exact(), [a, b, c], f, 3) == StepFact(Exact(), c, StepFact(Exact(), b, StepFact(Exact(), a, f)))
  {
    assert FactAt(Exact(), [a, b, c], f, 1) == StepFact(Exact(), a, f);
    assert FactAt(Exact(), [a, b, c], f, 2) == StepFact(Exact(), b, StepFact(Exact(), a, f));
  }

  lemma SettingSets(f: Fact<Value>)
    requires f.Keys <= All()
    ensures FactAt(Exact(), Setting(), f, 3) == AllFive()
  {
    hide StepFact, FactAt;
    var g := f[X := Const(5)][Y := Const(5)][T := Const(5)];
    ThreeSteps(Literal(X), Literal(Y), Literal(T), f);
    StepLiteral(X, f);
    StepLiteral(Y, f[X := Const(5)]);
    StepLiteral(T, f[X := Const(5)][Y := Const(5)]);
    assert g.Keys == f.Keys + All();
    SameFact(g, AllFive());
  }

  lemma KeepingKeeps(f: Fact<Value>)
    ensures FactAt(Exact(), Keeping(), f, 1) == f[Y := if Y in f && f[Y].Const? then f[Y] else Bottom]
  {
    assert FactAt(Exact(), Keeping(), f, 0) == f;
    StepCopy(Y, Y, f);
  }

  lemma CopyDecided(d: Var, s: Var, f: Fact<Value>)
    requires s in f && !f[s].Top?
    ensures StepFact(Exact(), Copying(d, s), f) == f[d := f[s]]
  {
    StepCopy(d, s, f);
  }

  lemma SwappingSwaps(f: Fact<Value>)
    requires f.Keys == All() && Fives(f)
    ensures FactAt(Exact(), Swapping(), f, 3) == f[T := f[X]][X := f[Y]][Y := f[X]]
  {
    hide StepFact, FactAt;
    ThreeSteps(Copying(T, X), Copying(X, Y), Copying(Y, T), f);
    CopyDecided(T, X, f);
    CopyDecided(X, Y, f[T := f[X]]);
    CopyDecided(Y, T, f[T := f[X]][X := f[Y]]);
  }

  /** The program at work. */
  ghost predicate Plays(q: Cfg, a: BlockId, c: BlockId, d: BlockId) {
    && SwingShape(q, a, c, d)
    && forall n {:trigger q.blocks[n]} :: n in q.blocks ==> q.blocks[n] == if n == a then Keeping() else if n == c then Swapping() else Setting()
  }

  lemma OutSetting(q: Cfg, a: BlockId, c: BlockId, d: BlockId, n: BlockId, f: Fact<Value>)
    requires Plays(q, a, c, d) && n in q.blocks && n != a && n != c && f.Keys <= All()
    ensures BlockOut(q, Exact(), n, f) == AllFive()
  {
    hide SwingShape;
    assert Insts(q, n) == Setting();
    SettingSets(f);
  }

  lemma OutKeeping(q: Cfg, a: BlockId, c: BlockId, d: BlockId)
    requires Plays(q, a, c, d)
    ensures BlockOut(q, Exact(), a, map[]) == Stray()
    ensures BlockOut(q, Exact(), a, LeftLost()) == LeftLost() && BlockOut(q, Exact(), a, RightLost()) == RightLost()
  {
    KeepsPattern(map[], Stray());
    KeepsPattern(LeftLost(), LeftLost());
    KeepsPattern(RightLost(), RightLost());
    hide FactAt;
    assert a in q.blocks;
    assert Insts(q, a) == Keeping();
  }

  lemma KeepsPattern(f: Fact<Value>, g: Fact<Value>)
    requires g.Keys == f.Keys + {Y} && forall v :: v in g ==> g[v] == if v != Y then f[v] else if Y in f && f[Y].Const? then f[Y] else Bottom
    ensures FactAt(Exact(), Keeping(), f, 1) == g
  {
    KeepingKeeps(f);
    SameFact(f[Y := if Y in f && f[Y].Const? then f[Y] else Bottom], g);
  }

  lemma OutSwapping(q: Cfg, a: BlockId, c: BlockId, d: BlockId, f: Fact<Value>)
    requires Plays(q, a, c, d) && f.Keys == All() && Fives(f)
    ensures Lost(f) == {Y} || Lost(f) == {Y, T} ==> BlockOut(q, Exact(), c, f) == LeftLost()
    ensures Lost(f) == {X} ==> BlockOut(q, Exact(), c, f) == RightLost()
  {
    hide FactAt;
    var g := f[T := f[X]][X := f[Y]][Y := f[X]];
    SwappingSwaps(f);
    assert c in q.blocks by { ShapeLive(q, a, c, d); }
    assert Insts(q, c) == Swapping();
    assert forall v :: v in All() ==> (v in Lost(f) <==> f[v] == Bottom);
    if Lost(f) == {Y} || Lost(f) == {Y, T} {
      SameFact(g, LeftLost());
    }
    if Lost(f) == {X} {
      SameFact(g, RightLost());
    }
  }

  lemma ShapeLive(q: Cfg, a: BlockId, c: BlockId, d: BlockId)
    requires SwingShape(q, a, c, d)
    ensures a in q.blocks && c in q.blocks && d in q.blocks && a in ReachableBlocks(q) && c in ReachableBlocks(q) && d in ReachableBlocks(q)
  {
    ReachableLive(q);
    var e :| e in q.edges && q.edges[e].source == a && q.edges[e].target == c;
    EdgeLeads(q, e);
  }

  lemma PlaysMentions(q: Cfg, a: BlockId, c: BlockId, d: BlockId)
    requires Plays(q, a, c, d)
    ensures Mentioned(q) <= All() && NoDeparture(q)
  {
    hide SwingShape;
    forall v | v in Mentioned(q) ensures v in All() {
      var b, i :| b in q.blocks && 0 <= i < |q.blocks[b]| && v in q.blocks[b][i].uses + q.blocks[b][i].defs;
      Simple(q.blocks[b], i);
    }
    forall e | e in q.edges ensures !Throws(q, q.edges[e].source) {
      var b := q.edges[e].source;
      forall i | 0 <= i < |Insts(q, b)| ensures !Insts(q, b)[i].mayUnwind {
        assert q.blocks[b] == Insts(q, b);
        Simple(q.blocks[b], i);
      }
    }
  }

  lemma Simple(insts: seq<Inst>, i: nat)
    requires (insts == Keeping() || insts == Swapping() || insts == Setting()) && i < |insts|
    ensures !insts[i].mayUnwind && forall v :: v in insts[i].uses + insts[i].defs ==> v in All()
  {
  }

  lemma PlaysWell(q: Cfg, a: BlockId, c: BlockId, d: BlockId)
    requires Plays(q, a, c, d)
    ensures q.WellFormed() && a != q.entry && c != q.entry && a < c && d < c && a != d
  {
  }

  /** What a block is entered with, when its edges carry fives and overdefined values: at least what each of them speaks
      of and has lost, and no more than all of them. */
  lemma {:induction false} RowMeets(q: Cfg, n: BlockId, m: map<Slot, Fact<Value>>, known: set<Var>, lost: set<Var>, k: nat)
    requires q.WellFormed() && n != q.entry && k <= |Upstream(q, Forward, n)|
    requires forall e :: e in q.edges && q.edges[e].target == n ==>
               On(e) in m && Fives(m[On(e)]) && m[On(e)].Keys <= known && Lost(m[On(e)]) <= lost
    ensures var met := MeetUpTo(q, ConstProblem(q, Exact()), n, m, k);
            && met.Ok? && (met.value.Some? <==> k > 0)
            && (k > 0 ==>
                  && Fives(met.value.value) && met.value.value.Keys <= known && Lost(met.value.value) <= lost
                  && forall i :: 0 <= i < k ==>
                       var f := m[On(Upstream(q, Forward, n)[i])]; f.Keys <= met.value.value.Keys && Lost(f) <= Lost(met.value.value))
  {
    hide MeetFacts, Lost, Fives;
    if k > 0 {
      var row := Upstream(q, Forward, n);
      RowMeets(q, n, m, known, lost, k - 1);
      assert FactOn(ConstProblem(q, Exact()), m, row[k - 1]) == m[On(row[k - 1])];
      var before := MeetUpTo(q, ConstProblem(q, Exact()), n, m, k - 1);
      if before.value.Some? {
        FivesMeet(before.value.value, m[On(row[k - 1])]);
      }
    }
  }

  lemma EntryMeets(q: Cfg, n: BlockId, m: map<Slot, Fact<Value>>, known: set<Var>, lost: set<Var>, e: EdgeId)
    requires q.WellFormed() && n != q.entry && e in q.edges && q.edges[e].target == n
    requires forall e :: e in q.edges && q.edges[e].target == n ==>
               On(e) in m && Fives(m[On(e)]) && m[On(e)].Keys <= known && Lost(m[On(e)]) <= lost
    ensures var met := MeetEdges(q, ConstProblem(q, Exact()), n, m);
            && met.Ok? && Fives(met.value) && m[On(e)].Keys <= met.value.Keys <= known && Lost(m[On(e)]) <= Lost(met.value) <= lost
  {
    hide Lost, Fives;
    var row := Upstream(q, Forward, n);
    RowMeets(q, n, m, known, lost, |row|);
    assert e in row;
    var i :| 0 <= i < |row| && row[i] == e;
  }

  /** `a` sends `sa` along its edges, `c` sends `sc`, and every other block five for everything, or nothing so far. */
  ghost predicate Carried(q: Cfg, a: BlockId, c: BlockId, m: map<Slot, Fact<Value>>, sa: Fact<Value>, sc: Fact<Value>) {
    m.Keys == Slots(q)
    && forall e {:trigger m[On(e)]} :: e in q.edges ==>
         && (q.edges[e].source == a ==> m[On(e)] == sa) && (q.edges[e].source == c ==> m[On(e)] == sc)
         && (q.edges[e].source != a && q.edges[e].source != c ==> m[On(e)] == map[] || m[On(e)] == AllFive())
         && (!ReachableBlock(q, q.edges[e].source) ==> m[On(e)] == map[])
  }

  /** Block `b` sends five for everything. */
  ghost predicate Sends(q: Cfg, m: map<Slot, Fact<Value>>, b: BlockId) {
    forall e {:trigger m[On(e)]} :: e in q.edges && q.edges[e].source == b ==> On(e) in m && m[On(e)] == AllFive()
  }

  ghost predicate Silent(q: Cfg, m: map<Slot, Fact<Value>>, c: BlockId) {
    forall e {:trigger m[On(e)]} :: e in q.edges && q.edges[e].source > c ==> On(e) in m && m[On(e)] == map[]
  }

  /** Before the first visit of `c`: `a` has sent nothing, or what it makes of nothing. */
  ghost predicate Before(q: Cfg, a: BlockId, c: BlockId, d: BlockId, st: State<Fact<Value>>, sa: Fact<Value>) {
    && Carried(q, a, c, st.facts, sa, map[]) && Silent(q, st.facts, c) && c in st.worklist
    && (sa == Stray() || (sa == map[] && a in st.worklist)) && (d in st.worklist || Sends(q, st.facts, d))
  }

  /** From then on `c` sends a fact that has lost something, and not the same as what it is sent. */
  ghost predicate After(q: Cfg, a: BlockId, c: BlockId, d: BlockId, st: State<Fact<Value>>, sa: Fact<Value>, sc: Fact<Value>) {
    && Carried(q, a, c, st.facts, sa, sc) && Sends(q, st.facts, d)
    && (sa == Stray() || sa == LeftLost() || sa == RightLost()) && (sc == LeftLost() || sc == RightLost())
  }

  ghost predicate Swinging(q: Cfg, a: BlockId, c: BlockId, d: BlockId, st: State<Fact<Value>>) {
    && st.worklist <= ReachableBlocks(q)
    && ((exists sa :: Before(q, a, c, d, st, sa)) || exists sa, sc :: After(q, a, c, d, st, sa, sc))
  }

  lemma Patterns()
    ensures Fives(map[]) && Lost(map[]) == {} && Fives(AllFive()) && Lost(AllFive()) == {} && AllFive().Keys == All()
    ensures Fives(Stray()) && Lost(Stray()) == {Y} && Stray().Keys == {Y}
    ensures Fives(LeftLost()) && Lost(LeftLost()) == {X} && LeftLost().Keys == All()
    ensures Fives(RightLost()) && Lost(RightLost()) == {Y, T} && RightLost().Keys == All()
  {
  }

  /** `a` meets what `c` sends, and fives. */
  lemma EntersA(q: Cfg, a: BlockId, c: BlockId, d: BlockId, m: map<Slot, Fact<Value>>, sa: Fact<Value>, sc: Fact<Value>)
    requires Plays(q, a, c, d) && Carried(q, a, c, m, sa, sc)
    requires sc == LeftLost() || sc == RightLost() || (sc == map[] && Silent(q, m, c))
    ensures MeetEdges(q, ConstProblem(q, Exact()), a, m) == Ok(sc)
  {
    hide Fives, Lost, Pattern, MeetEdges, MeetFacts;
    Patterns();
    var e :| e in q.edges && q.edges[e].source == c && q.edges[e].target == a;
    forall x | x in q.edges && q.edges[x].target == a
      ensures On(x) in m && Fives(m[On(x)]) && m[On(x)].Keys <= sc.Keys && Lost(m[On(x)]) <= Lost(sc)
    {
      assert On(x) in m && m[On(x)] == m[On(x)];
      assert !Succ(q, a, a);
    }
    assert m[On(e)] == sc;
    EntryMeets(q, a, m, sc.Keys, Lost(sc), e);
    SamePattern(MeetEdges(q, ConstProblem(q, Exact()), a, m).value, sc);
  }

  /** `c` meets what `a` sends, and fives for everything. */
  lemma EntersC(q: Cfg, a: BlockId, c: BlockId, d: BlockId, m: map<Slot, Fact<Value>>, sa: Fact<Value>, sc: Fact<Value>)
    requires Plays(q, a, c, d) && Carried(q, a, c, m, sa, sc) && Sends(q, m, d) && (sa == Stray() || sa == LeftLost() || sa == RightLost())
    ensures var met := MeetEdges(q, ConstProblem(q, Exact()), c, m);
            met.Ok? && Fives(met.value) && met.value.Keys == All() && Lost(met.value) == Lost(sa)
  {
    hide Fives, Lost, Pattern, Plays, SwingShape, MeetEdges, Carried, Sends, Stray;
    Patterns();
    PlaysWell(q, a, c, d);
    var e, x := IntoC(q, a, c, d, m, sa, sc);
    EntryMeets(q, c, m, All(), Lost(sa), e);
    EntryMeets(q, c, m, All(), Lost(sa), x);
  }

  lemma IntoC(q: Cfg, a: BlockId, c: BlockId, d: BlockId, m: map<Slot, Fact<Value>>, sa: Fact<Value>, sc: Fact<Value>)
    returns (e: EdgeId, x: EdgeId)
    requires Plays(q, a, c, d) && Carried(q, a, c, m, sa, sc) && Sends(q, m, d) && Fives(sa) && sa.Keys <= All()
    ensures forall x :: x in q.edges && q.edges[x].target == c ==>
              On(x) in m && Fives(m[On(x)]) && m[On(x)].Keys <= All() && Lost(m[On(x)]) <= Lost(sa)
    ensures e in q.edges && q.edges[e].target == c && m[On(e)] == sa
    ensures x in q.edges && q.edges[x].target == c && m[On(x)] == AllFive()
  {
    hide Fives, Lost, Pattern;
    Patterns();
    e :| e in q.edges && q.edges[e].source == a && q.edges[e].target == c;
    x :| x in q.edges && q.edges[x].source == d && q.edges[x].target == c;
    forall x | x in q.edges && q.edges[x].target == c
      ensures On(x) in m && Fives(m[On(x)]) && m[On(x)].Keys <= All() && Lost(m[On(x)]) <= Lost(sa)
    {
      assert On(x) in m && m[On(x)] == m[On(x)];
      assert !Succ(q, c, c);
    }
    assert m[On(e)] == m[On(e)] && m[On(x)] == m[On(x)];
  }

  /** A visit of a block other than these two. */
  lemma SwingsOther(q: Cfg, a: BlockId, c: BlockId, d: BlockId, st: State<Fact<Value>>, next: State<Fact<Value>>, sa: Fact<Value>,
                    sc: Fact<Value>, n: BlockId, out: Fact<Value>)
    requires Carried(q, a, c, st.facts, sa, sc) && n != a && n != c && ReachableBlock(q, n)
    requires Changed(q, st.facts, next.facts, n, AllFive())
    ensures Carried(q, a, c, next.facts, sa, sc) && Sends(q, next.facts, n)
    ensures Sends(q, st.facts, d) ==> Sends(q, next.facts, d)
    ensures n < c && Silent(q, st.facts, c) ==> Silent(q, next.facts, c)
  {
    forall e | e in q.edges ensures On(e) in st.facts && On(e) in next.facts && st.facts[On(e)] == st.facts[On(e)] {
    }
  }

  lemma SwingsA(q: Cfg, a: BlockId, c: BlockId, d: BlockId, st: State<Fact<Value>>, next: State<Fact<Value>>, sa: Fact<Value>,
                sc: Fact<Value>, out: Fact<Value>)
    requires Carried(q, a, c, st.facts, sa, sc) && a != c && a != d && ReachableBlock(q, a)
    requires Changed(q, st.facts, next.facts, a, out)
    ensures Carried(q, a, c, next.facts, out, sc)
    ensures Sends(q, st.facts, d) ==> Sends(q, next.facts, d)
    ensures a < c && Silent(q, st.facts, c) ==> Silent(q, next.facts, c)
  {
    forall e | e in q.edges ensures On(e) in st.facts && On(e) in next.facts && st.facts[On(e)] == st.facts[On(e)] {
    }
  }

  lemma SwingsC(q: Cfg, a: BlockId, c: BlockId, d: BlockId, st: State<Fact<Value>>, next: State<Fact<Value>>, sa: Fact<Value>,
                sc: Fact<Value>, out: Fact<Value>)
    requires Carried(q, a, c, st.facts, sa, sc) && a != c && c != d && ReachableBlock(q, c)
    requires Changed(q, st.facts, next.facts, c, out)
    ensures Carried(q, a, c, next.facts, sa, out)
    ensures Sends(q, st.facts, d) ==> Sends(q, next.facts, d)
  {
    forall e | e in q.edges ensures On(e) in st.facts && On(e) in next.facts && st.facts[On(e)] == st.facts[On(e)] {
    }
  }

  /** One visit keeps the swing going. */
  lemma SwingsOn(q: Cfg, a: BlockId, c: BlockId, d: BlockId, st: State<Fact<Value>>)
    requires Plays(q, a, c, d) && Swinging(q, a, c, d, st) && st.worklist != {} && KeysWithin(Mentioned(q), st.facts)
    requires Visit(EdgeSystem(q, ConstProblem(q, Exact())), st).Ok?
    ensures Swinging(q, a, c, d, Visit(EdgeSystem(q, ConstProblem(q, Exact())), st).value)
  {
    hide Plays, Carried, Sends, Silent, Visit, MeetEdges, ReachableBlock, BlockOut, Mentioned;
    var n, next := First(st.worklist), Visit(EdgeSystem(q, ConstProblem(q, Exact())), st).value;
    SwingSlots(q, a, c, d, st);
    PlaysWell(q, a, c, d);
    PlaysMentions(q, a, c, d);
    QuietVisit(q, Exact(), st);
    var f := MeetEdges(q, ConstProblem(q, Exact()), n, st.facts).value;
    assert Changed(q, st.facts, next.facts, n, BlockOut(q, Exact(), n, f));
    if sa :| Before(q, a, c, d, st, sa) {
      SwingsBefore(q, a, c, d, st, next, sa);
    } else {
      var sa, sc :| After(q, a, c, d, st, sa, sc);
      SwingsAfter(q, a, c, d, st, next, sa, sc);
    }
  }

  lemma SwingSlots(q: Cfg, a: BlockId, c: BlockId, d: BlockId, st: State<Fact<Value>>)
    requires Swinging(q, a, c, d, st)
    ensures st.facts.Keys == Slots(q)
  {
    if sa :| Before(q, a, c, d, st, sa) {
    } else {
      var sa, sc :| After(q, a, c, d, st, sa, sc);
    }
  }

  /** What a visit of another block does: its edges carry five for everything. */
  lemma OthersSend(q: Cfg, a: BlockId, c: BlockId, d: BlockId, m: map<Slot, Fact<Value>>, n: BlockId)
    requires Plays(q, a, c, d) && n in ReachableBlocks(q) && n != a && n != c && KeysWithin(Mentioned(q), m)
    requires MeetEdges(q, ConstProblem(q, Exact()), n, m).Ok?
    ensures ReachableBlock(q, n) && BlockOut(q, Exact(), n, MeetEdges(q, ConstProblem(q, Exact()), n, m).value) == AllFive()
  {
    hide BlockOut, ReachableBlock, Mentioned;
    MetKeys(q, Exact(), m, n, |Upstream(q, Forward, n)|);
    PlaysMentions(q, a, c, d);
    OutSetting(q, a, c, d, n, MeetEdges(q, ConstProblem(q, Exact()), n, m).value);
  }

  lemma SwingsBefore(q: Cfg, a: BlockId, c: BlockId, d: BlockId, st: State<Fact<Value>>, next: State<Fact<Value>>, sa: Fact<Value>)
    requires Plays(q, a, c, d) && Before(q, a, c, d, st, sa) && st.worklist <= ReachableBlocks(q) && KeysWithin(Mentioned(q), st.facts)
    requires st.worklist - {First(st.worklist)} <= next.worklist <= ReachableBlocks(q)
    requires var met := MeetEdges(q, ConstProblem(q, Exact()), First(st.worklist), st.facts);
             met.Ok? && Changed(q, st.facts, next.facts, First(st.worklist), BlockOut(q, Exact(), First(st.worklist), met.value))
    ensures Swinging(q, a, c, d, next)
  {
    hide Plays, Carried, Sends, Silent, Visit, MeetEdges, ReachableBlock, BlockOut, Mentioned, Pattern, Changed;
    PlaysWell(q, a, c, d);
    PlaysReach(q, a, c, d);
    var n := First(st.worklist);
    if n == a {
      EntersA(q, a, c, d, st.facts, sa, map[]);
      OutKeeping(q, a, c, d);
      SwingsA(q, a, c, d, st, next, sa, map[], Stray());
      assert Before(q, a, c, d, next, Stray());
    } else if n == c {
      EntersC(q, a, c, d, st.facts, sa, map[]);
      Patterns();
      OutSwapping(q, a, c, d, MeetEdges(q, ConstProblem(q, Exact()), c, st.facts).value);
      SwingsC(q, a, c, d, st, next, sa, map[], LeftLost());
      assert After(q, a, c, d, next, sa, LeftLost());
    } else {
      OthersSend(q, a, c, d, st.facts, n);
      SwingsOther(q, a, c, d, st, next, sa, map[], n, AllFive());
      assert Before(q, a, c, d, next, sa);
    }
  }

  lemma PlaysReach(q: Cfg, a: BlockId, c: BlockId, d: BlockId)
    requires Plays(q, a, c, d)
    ensures ReachableBlock(q, a) && ReachableBlock(q, c) && a in q.blocks && c in q.blocks
    ensures a in ReachableBlocks(q) && c in ReachableBlocks(q)
  {
    ShapeLive(q, a, c, d);
  }

  lemma SwingsAfter(q: Cfg, a: BlockId, c: BlockId, d: BlockId, st: State<Fact<Value>>, next: State<Fact<Value>>, sa: Fact<Value>,
                    sc: Fact<Value>)
    requires Plays(q, a, c, d) && After(q, a, c, d, st, sa, sc) && st.worklist != {} && st.worklist <= ReachableBlocks(q)
    requires KeysWithin(Mentioned(q), st.facts) && next.worklist <= ReachableBlocks(q)
    requires var met := MeetEdges(q, ConstProblem(q, Exact()), First(st.worklist), st.facts);
             met.Ok? && Changed(q, st.facts, next.facts, First(st.worklist), BlockOut(q, Exact(), First(st.worklist), met.value))
    ensures Swinging(q, a, c, d, next)
  {
    hide Plays, Carried, Sends, Silent, Visit, MeetEdges, ReachableBlock, BlockOut, Mentioned, Pattern, Changed;
    PlaysWell(q, a, c, d);
    PlaysReach(q, a, c, d);
    var n := First(st.worklist);
    if n == a {
      EntersA(q, a, c, d, st.facts, sa, sc);
      OutKeeping(q, a, c, d);
      SwingsA(q, a, c, d, st, next, sa, sc, sc);
      assert After(q, a, c, d, next, sc, sc);
    } else if n == c {
      var out := Swapped(sa);
      EntersC(q, a, c, d, st.facts, sa, sc);
      SwapsOut(q, a, c, d, MeetEdges(q, ConstProblem(q, Exact()), c, st.facts).value, sa);
      SwingsC(q, a, c, d, st, next, sa, sc, out);
      assert After(q, a, c, d, next, sa, out);
    } else {
      OthersSend(q, a, c, d, st.facts, n);
      SwingsOther(q, a, c, d, st, next, sa, sc, n, AllFive());
      assert After(q, a, c, d, next, sa, sc);
    }
  }

  /** What `c` makes of what `a` sends it. */
  function Swapped(sa: Fact<Value>): Fact<Value> { if sa == LeftLost() then RightLost() else LeftLost() }

  lemma SwapsOut(q: Cfg, a: BlockId, c: BlockId, d: BlockId, f: Fact<Value>, sa: Fact<Value>)
    requires Plays(q, a, c, d) && Fives(f) && f.Keys == All() && Lost(f) == Lost(sa)
    requires sa == Stray() || sa == LeftLost() || sa == RightLost()
    ensures BlockOut(q, Exact(), c, f) == Swapped(sa)
  {
    hide Plays, Pattern, Fives, BlockOut;
    Patterns();
    OutSwapping(q, a, c, d, f);
    LossesDiffer();
  }

  lemma LossesDiffer()
    ensures Stray() != LeftLost() && LeftLost() != RightLost() && Stray() != RightLost()
  {
    Patterns();
    assert X in Lost(LeftLost()) && X !in Lost(RightLost()) && X !in Stray().Keys;
  }

  lemma SwingsStart(q: Cfg, a: BlockId, c: BlockId, d: BlockId)
    requires Plays(q, a, c, d)
    ensures Swinging(q, a, c, d, Initial(EdgeSystem(q, ConstProblem(q, Exact())), ReachableBlocks(q)))
  {
    hide ReachableBlock, Stray;
    var st := Initial(EdgeSystem(q, ConstProblem(q, Exact())), ReachableBlocks(q));
    ShapeLive(q, a, c, d);
    NothingYet(q, a, c, st.facts);
    assert Before(q, a, c, d, st, map[]);
  }

  lemma NothingYet(q: Cfg, a: BlockId, c: BlockId, m: map<Slot, Fact<Value>>)
    requires m.Keys == Slots(q) && forall s :: s in m ==> m[s] == map[]
    ensures Carried(q, a, c, m, map[], map[]) && Silent(q, m, c)
  {
    hide ReachableBlock;
    forall e | e in q.edges ensures On(e) in m && m[On(e)] == map[] {
    }
  }

  lemma {:induction false} KeepsSwinging(q: Cfg, a: BlockId, c: BlockId, d: BlockId, k: nat)
    requires Plays(q, a, c, d)
    ensures RunFor(EdgeSystem(q, ConstProblem(q, Exact())), ReachableBlocks(q), k).Ok?
    ensures Swinging(q, a, c, d, RunFor(EdgeSystem(q, ConstProblem(q, Exact())), ReachableBlocks(q), k).value)
  {
    hide Plays, Swinging, Visit;
    PlaysWell(q, a, c, d);
    RunKeys(q, Exact(), ReachableBlocks(q), k);
    if k == 0 {
      SwingsStart(q, a, c, d);
    } else {
      KeepsSwinging(q, a, c, d, k - 1);
      RunKeys(q, Exact(), ReachableBlocks(q), k - 1);
      var st := RunFor(EdgeSystem(q, ConstProblem(q, Exact())), ReachableBlocks(q), k - 1).value;
      if st.worklist != {} {
        SwingsOn(q, a, c, d, st);
      }
    }
  }

  lemma RestA(q: Cfg, a: BlockId, c: BlockId, d: BlockId, st: State<Fact<Value>>, sa: Fact<Value>, sc: Fact<Value>)
    requires Plays(q, a, c, d) && After(q, a, c, d, st, sa, sc) && EquationsAt(q, ConstProblem(q, Exact()), st.facts, a)
    ensures sa == sc
  {
    hide BlockOut, MeetEdges, EquationsAt, Pattern, ReachableBlock;
    ShapeLive(q, a, c, d);
    var e :| e in q.edges && q.edges[e].source == a && q.edges[e].target == c;
    PlaysMentions(q, a, c, d);
    AtRest(q, Exact(), st.facts, a, e);
    EntersA(q, a, c, d, st.facts, sa, sc);
    OutKeeping(q, a, c, d);
  }

  lemma RestC(q: Cfg, a: BlockId, c: BlockId, d: BlockId, st: State<Fact<Value>>, sa: Fact<Value>, sc: Fact<Value>)
    requires Plays(q, a, c, d) && After(q, a, c, d, st, sa, sc) && EquationsAt(q, ConstProblem(q, Exact()), st.facts, c)
    ensures sc == Swapped(sa)
  {
    hide BlockOut, MeetEdges, EquationsAt, Pattern, ReachableBlock;
    ShapeLive(q, a, c, d);
    var e :| e in q.edges && q.edges[e].source == c && q.edges[e].target == a;
    PlaysMentions(q, a, c, d);
    AtRest(q, Exact(), st.facts, c, e);
    EntersC(q, a, c, d, st.facts, sa, sc);
    SwapsOut(q, a, c, d, MeetEdges(q, ConstProblem(q, Exact()), c, st.facts).value, sa);
  }

  /** Two blocks that swing are never both at rest. */
  lemma NoRest(q: Cfg, a: BlockId, c: BlockId, d: BlockId, st: State<Fact<Value>>)
    requires Plays(q, a, c, d) && Swinging(q, a, c, d, st) && st.worklist == {}
    ensures !(EquationsAt(q, ConstProblem(q, Exact()), st.facts, a) && EquationsAt(q, ConstProblem(q, Exact()), st.facts, c))
  {
    hide Plays, EquationsAt, Carried, Sends, Pattern;
    LossesDiffer();
    var sa, sc :| After(q, a, c, d, st, sa, sc);
    if EquationsAt(q, ConstProblem(q, Exact()), st.facts, a) {
      RestA(q, a, c, d, st, sa, sc);
    }
    if EquationsAt(q, ConstProblem(q, Exact()), st.facts, c) {
      RestC(q, a, c, d, st, sa, sc);
    }
  }

  lemma SwingPlays(p: Cfg, a: BlockId, c: BlockId, d: BlockId)
    requires SwingShape(p, a, c, d)
    ensures SameShape(p, Swing(p, a, c)) && Plays(Swing(p, a, c), a, c, d)
  {
    SwingSame(p, a, c, d);
    hide SwingShape;
  }

  lemma NeverRests(q: Cfg, a: BlockId, c: BlockId, d: BlockId, enough: nat)
    requires Plays(q, a, c, d)
    ensures !Ends(EdgeSystem(q, ConstProblem(q, Exact())), ReachableBlocks(q), enough)
  {
    hide Plays, Swinging, EquationsAt, ReachableBlock, Settled;
    var sys := EdgeSystem(q, ConstProblem(q, Exact()));
    KeepsSwinging(q, a, c, d, enough);
    PlaysReach(q, a, c, d);
    PlaysWell(q, a, c, d);
    var st := RunFor(sys, ReachableBlocks(q), enough).value;
    EdgeWired(q, ConstProblem(q, Exact()));
    SwingSlots(q, a, c, d, st);
    if st.worklist == {} {
      NoRest(q, a, c, d, st);
      FinishedSolves(sys, ReachableBlocks(q), enough);
      SettledMeansEquations(q, ConstProblem(q, Exact()), st.facts, a);
      SettledMeansEquations(q, ConstProblem(q, Exact()), st.facts, c);
    }
  }

  /** Constant propagation does not always end. On every graph of this shape there is a program, over a domain that keeps
      every law and with a fold that is right about it, that no number of visits settles: block `a`, visited before
      anything has reached it, calls `Y` overdefined, and the cycle swaps that between `X` and `Y` for ever. */
  lemma NeverEnds(p: Cfg, a: BlockId, c: BlockId, d: BlockId, enough: nat)
    requires SwingShape(p, a, c, d)
    ensures var q := Swing(p, a, c);
            && SameShape(p, q) && q.WellFormed() && q.Contracts() && LawfulDomain(Exact(), ExactLaws())
            && FolderSound(q, Exact(), Meant(), MachineSemantics())
            && !Ends(EdgeSystem(q, ConstProblem(q, Exact())), ReachableBlocks(q), enough)
  {
    hide LawfulDomain, FolderSound, Ends, ReachableBlocks, SameShape, Plays, Swing, Cfg.Contracts;
    SwingPlays(p, a, c, d);
    PlaysWell(Swing(p, a, c), a, c, d);
    SwingOk(p, a, c);
    NeverRests(Swing(p, a, c), a, c, d, enough);
  }

  /** On these graphs the early block `a` leads to a cycle. */
  lemma SwingLeadsRound(p: Cfg, a: BlockId, c: BlockId, d: BlockId)
    requires SwingShape(p, a, c, d)
    ensures Early(p, a) && LeadsOn(p, a, a) && !EarlyAcyclic(p)
  {
    var e :| e in p.edges && p.edges[e].source == a && p.edges[e].target == c;
    var x :| x in p.edges && p.edges[x].source == c && p.edges[x].target == a;
    EdgeLeads(p, e);
    EdgeLeads(p, x);
    LeadsThrough(p, a, c, a);
    EarlyAffected(p, a);
  }

  /** The smallest: the entry leads into the loop of blocks 2 and 1. */
  function Smallest(): Cfg {
    Cfg(0, 3, map[0 := [], 1 := [], 2 := []],
        map[0 := Edge(0, 2, Fallthrough), 1 := Edge(1, 2, Fallthrough), 2 := Edge(2, 1, Fallthrough)],
        map[0 := [0], 1 := [1], 2 := [2]], map[0 := [], 1 := [2], 2 := [0, 1]])
  }

  ghost predicate Looks(p: Cfg) {
    && p.entry == 0 && p.bound == 3 && (forall n: nat :: n in p.blocks <==> n < 3) && (forall e: nat :: e in p.edges <==> e < 3)
    && (forall n: nat :: n in p.out <==> n < 3) && (forall n: nat :: n in p.inc <==> n < 3)
    && (p.edges[0].source == 0 && p.edges[0].target == 2) && (p.edges[1].source == 1 && p.edges[1].target == 2)
    && (p.edges[2].source == 2 && p.edges[2].target == 1)
    && p.out[0] == [0] && p.out[1] == [1] && p.out[2] == [2] && p.inc[0] == [] && p.inc[1] == [2] && p.inc[2] == [0, 1]
  }

  lemma SmallestLooks()
    ensures Looks(Smallest())
  {
  }

  lemma LooksWellFormed(p: Cfg)
    requires Looks(p)
    ensures p.WellFormed()
  {
    LooksEdges(p);
    LooksRows(p);
  }

  lemma LooksEdges(p: Cfg)
    requires Looks(p)
    ensures forall e :: e in p.edges ==>
              && p.edges[e].source in p.blocks && p.edges[e].target in p.blocks
              && e in p.out[p.edges[e].source] && e in p.inc[p.edges[e].target]
  {
    assert 0 in p.inc[2] && 1 in p.inc[2] && 2 in p.inc[1] && 0 in p.out[0] && 1 in p.out[1] && 2 in p.out[2];
    forall e | e in p.edges
      ensures p.edges[e].source in p.blocks && p.edges[e].target in p.blocks
      ensures e in p.out[p.edges[e].source] && e in p.inc[p.edges[e].target]
    {
      assert e == 0 || e == 1 || e == 2;
    }
  }

  lemma LooksRows(p: Cfg)
    requires Looks(p)
    ensures forall b, i :: b in p.out && 0 <= i < |p.out[b]| ==> p.out[b][i] in p.edges && p.edges[p.out[b][i]].source == b
    ensures forall b, i :: b in p.inc && 0 <= i < |p.inc[b]| ==> p.inc[b][i] in p.edges && p.edges[p.inc[b][i]].target == b
  {
    forall b, i | b in p.out && 0 <= i < |p.out[b]| ensures p.out[b][i] in p.edges && p.edges[p.out[b][i]].source == b {
      assert b == 0 || b == 1 || b == 2;
    }
    forall b, i | b in p.inc && 0 <= i < |p.inc[b]| ensures p.inc[b][i] in p.edges && p.edges[p.inc[b][i]].target == b {
      assert b == 0 || b == 1 || b == 2;
    }
  }

  lemma LooksSwings(p: Cfg)
    requires Looks(p)
    ensures SwingShape(p, 1, 2, 0)
  {
    LooksWellFormed(p);
    LooksReached(p);
    hide Cfg.WellFormed, ReachableBlock;
    assert Succ(p, 1, 2) by { assert 1 in p.edges; }
    assert Succ(p, 2, 1) by { assert 2 in p.edges; }
    assert Succ(p, 0, 2) by { assert 0 in p.edges; }
    forall e | e in p.edges ensures e == 0 || e == 1 || e == 2 {
    }
  }

  lemma LooksReached(p: Cfg)
    requires Looks(p)
    ensures ReachableBlock(p, 0) && ReachableBlock(p, 1)
  {
    assert IsTrailTo(p, From(0), 0, 0);
    assert ReachableBlock(p, 0);
    hide ReachableBlock, LeadsOn, Affected;
    EdgeLeads(p, 0);
    EdgeLeads(p, 2);
  }

  lemma SmallestNeverEnds(enough: nat)
    ensures var q := Swing(Smallest(), 1, 2); !Ends(EdgeSystem(q, ConstProblem(q, Exact())), ReachableBlocks(q), enough)
  {
    hide SwingShape, Ends, ReachableBlocks, Swing;
    SmallestLooks();
    LooksSwings(Smallest());
    NeverEnds(Smallest(), 1, 2, 0, enough);
  }
}
