/** When constant propagation ends: whenever no block that is visited before anything has reached it leads to a cycle. */
module ConstantTermination {
  import opened Wrappers
  import opened Program
  import opened Trails
  import opened Reachability
  import opened PointDominanceQuery
  import opened Iteration
  import opened EdgeFixpoint
  import opened Constants
  import opened ConstantPropagation
  import opened StrictPropagation
  import opened EarlyBlocks

  /** The slot belongs to a block entered in time. */
  predicate Timely(p: Cfg, timely: set<BlockId>, s: Slot) {
    s in Slots(p) && OwnerOf(p, Forward, s) in timely
  }

  /** The facts of the blocks entered in time; every other slot as nothing had reached it. */
  function Part<C>(p: Cfg, timely: set<BlockId>, m: map<Slot, Fact<C>>): map<Slot, Fact<C>> {
    map s | s in m :: if Timely(p, timely, s) then m[s] else map[]
  }

  /** Each downstream edge of `n` carries a full fact. */
  ghost predicate Filled<C>(p: Cfg, m: map<Slot, Fact<C>>, n: BlockId) {
    forall e :: e in Downstream(p, Forward, n) ==> On(e) in m && Full(Mentioned(p), m[On(e)])
  }

  /** Slots of blocks no path enters hold nothing. */
  ghost predicate Unreached<C>(p: Cfg, reached: set<BlockId>, m: map<Slot, Fact<C>>) {
    forall s {:trigger m[s]} :: s in m && s in Slots(p) && OwnerOf(p, Forward, s) !in reached ==> m[s] == map[]
  }

  ghost predicate Rises<C(!new)>(p: Cfg, dom: Domain<C>, laws: Laws<C>, m: map<Slot, Fact<C>>) {
    Ascending(EdgeSystem(p, StrictProblem(p, dom)), FactOrder(laws, Mentioned(p)), State(m, {}))
  }

  /** What a run of the solve has established: among the blocks entered in time, the facts of the problem without the
      lapse, none of which a visit would raise again, and full facts behind every block that is not queued. */
  ghost predicate Primed<C(!new)>(p: Cfg, dom: Domain<C>, laws: Laws<C>, reached: set<BlockId>, timely: set<BlockId>, st: State<Fact<C>>) {
    && st.worklist <= reached && st.facts.Keys == Slots(p) && Unreached(p, reached, st.facts)
    && Rises(p, dom, laws, Part(p, timely, st.facts))
    && forall n {:trigger Filled(p, st.facts, n)} :: n in timely && n !in st.worklist ==> Filled(p, st.facts, n)
  }

  lemma RisesFits<C(!new)>(p: Cfg, dom: Domain<C>, laws: Laws<C>, m: map<Slot, Fact<C>>)
    requires LawfulDomain(dom, laws) && Rises(p, dom, laws, m)
    ensures AllFit(p, m)
  {
    var o := FactOrder(laws, Mentioned(p));
    forall s | s in m ensures Fit(Mentioned(p), m[s]) {
      assert o.le(m[s], m[s]);
    }
  }

  lemma StartsRising<C(!new)>(p: Cfg, dom: Domain<C>, laws: Laws<C>)
    requires p.WellFormed() && LawfulDomain(dom, laws)
    ensures Rises(p, dom, laws, Initial(EdgeSystem(p, StrictProblem(p, dom)), {}).facts)
  {
    hide LawfulDomain, Monotone, Lawful, Ascending;
    var strict, o := StrictProblem(p, dom), FactOrder(laws, Mentioned(p));
    StrictMonotone(p, dom, laws);
    EdgeLawful(p, strict, o);
    InitialAscending(EdgeSystem(p, strict), o, {});
  }

  lemma StartsPrimed<C(!new)>(p: Cfg, dom: Domain<C>, laws: Laws<C>, reached: set<BlockId>, timely: set<BlockId>)
    requires p.WellFormed() && LawfulDomain(dom, laws) && timely <= reached <= p.blocks.Keys
    ensures Primed(p, dom, laws, reached, timely, Initial(EdgeSystem(p, ConstProblem(p, dom)), reached))
  {
    hide LawfulDomain, Rises, Filled;
    var st := Initial(EdgeSystem(p, ConstProblem(p, dom)), reached);
    StartsRising(p, dom, laws);
    PartInitial(p, dom, reached, timely);
  }

  lemma PartInitial<C(!new)>(p: Cfg, dom: Domain<C>, reached: set<BlockId>, timely: set<BlockId>)
    ensures Part(p, timely, Initial(EdgeSystem(p, ConstProblem(p, dom)), reached).facts) ==
            Initial(EdgeSystem(p, StrictProblem(p, dom)), {}).facts
  {
  }

  /** The entry starts with nothing known, and no edge into it changes that. */
  lemma {:induction false} EntryUnknown<C(!new)>(p: Cfg, dom: Domain<C>, m: map<Slot, Fact<C>>, k: nat)
    requires KeysWithin(Mentioned(p), m) && k <= |Upstream(p, Forward, p.entry)|
    ensures MeetUpTo(p, ConstProblem(p, dom), p.entry, m, k) == Ok(Some(Unknown(p)))
  {
    hide Mentioned;
    if k > 0 {
      EntryUnknown(p, dom, m, k - 1);
      var f := FactOn(ConstProblem(p, dom), m, Upstream(p, Forward, p.entry)[k - 1]);
      assert f.Keys <= Mentioned(p);
      UnknownMeets(p, dom, f);
    }
  }

  lemma UnknownMeets<C>(p: Cfg, dom: Domain<C>, f: Fact<C>)
    requires f.Keys <= Mentioned(p)
    ensures MeetFacts(dom, Unknown(p), f) == Unknown(p)
  {
    hide Mentioned;
    var g := MeetFacts(dom, Unknown(p), f);
    forall v | v in Mentioned(p) ensures v in g && g[v] == Bottom {
      assert Get(Unknown<C>(p), v) == Bottom;
    }
  }

  /** A block entered in time meets the same facts in its part as in the whole. */
  lemma MeetsPart<C(!new)>(p: Cfg, dom: Domain<C>, reached: set<BlockId>, timely: set<BlockId>, order: seq<BlockId>,
                           m: map<Slot, Fact<C>>, n: BlockId)
    requires p.WellFormed() && Divided(p, reached, timely, order) && n in timely
    requires m.Keys == Slots(p) && Unreached(p, reached, m) && KeysWithin(Mentioned(p), m)
    ensures MeetEdges(p, ConstProblem(p, dom), n, Part(p, timely, m)) == MeetEdges(p, ConstProblem(p, dom), n, m)
  {
    if n == p.entry {
      hide Upstream;
      EntryUnknown(p, dom, m, |Upstream(p, Forward, n)|);
      EntryUnknown(p, dom, Part(p, timely, m), |Upstream(p, Forward, n)|);
    } else {
      InnerMeetsPart(p, ConstProblem(p, dom), reached, timely, order, m, n);
    }
  }

  lemma InnerMeetsPart<C(!new)>(p: Cfg, prob: EdgeProblem<Fact<C>, ()>, reached: set<BlockId>, timely: set<BlockId>, order: seq<BlockId>,
                                m: map<Slot, Fact<C>>, n: BlockId)
    requires p.WellFormed() && Divided(p, reached, timely, order) && n in timely && n != p.entry
    requires prob.direction.Forward? && prob.bottom == map[] && m.Keys == Slots(p) && Unreached(p, reached, m)
    ensures MeetEdges(p, prob, n, Part(p, timely, m)) == MeetEdges(p, prob, n, m)
  {
    forall e | e in Upstream(p, Forward, n) ensures FactOn(prob, Part(p, timely, m), e) == FactOn(prob, m, e) {
      assert On(e) in Slots(p) && OwnerOf(p, Forward, On(e)) == p.edges[e].source;
      assert m[On(e)] == m[On(e)];
    }
    MeetLocal(p, prob, n, Part(p, timely, m), m, |Upstream(p, Forward, n)|);
  }

  /** The block visited next, when it is one entered in time, is entered with a full fact. */
  lemma NextFull<C(!new)>(p: Cfg, dom: Domain<C>, laws: Laws<C>, reached: set<BlockId>, timely: set<BlockId>, order: seq<BlockId>,
                          st: State<Fact<C>>)
    requires p.WellFormed() && LawfulDomain(dom, laws) && Divided(p, reached, timely, order)
    requires Primed(p, dom, laws, reached, timely, st) && KeysWithin(Mentioned(p), st.facts)
    requires st.worklist != {} && First(st.worklist) in timely
    ensures var n, m := First(st.worklist), Part(p, timely, st.facts);
            var met := MeetEdges(p, ConstProblem(p, dom), n, st.facts);
            && met.Ok? && Full(Mentioned(p), met.value)
            && MeetEdges(p, StrictProblem(p, dom), n, m) == met
  {
    var n, m := First(st.worklist), Part(p, timely, st.facts);
    RisesFits(p, dom, laws, m);
    MeetsPart(p, dom, reached, timely, order, st.facts, n);
    var i := FullFeeder(p, dom, laws, reached, timely, order, st);
    FullMeet(p, dom, n, m, i);
  }

  lemma FullFeeder<C(!new)>(p: Cfg, dom: Domain<C>, laws: Laws<C>, reached: set<BlockId>, timely: set<BlockId>, order: seq<BlockId>,
                            st: State<Fact<C>>)
    returns (i: nat)
    requires p.WellFormed() && Divided(p, reached, timely, order)
    requires Primed(p, dom, laws, reached, timely, st) && st.worklist != {} && First(st.worklist) in timely
    ensures var n, m := First(st.worklist), Part(p, timely, st.facts);
            if i == 0 then n == p.entry
            else i <= |Upstream(p, Forward, n)| &&
                 Full(Mentioned(p), FactOn(ConstProblem(p, dom), m, Upstream(p, Forward, n)[i - 1]))
  {
    hide Rises, Full;
    var n, m := First(st.worklist), Part(p, timely, st.facts);
    var row := Upstream(p, Forward, n);
    i := 0;
    if n != p.entry {
      assert Fed(p, timely, n);
      var e :| e in p.edges && p.edges[e].target == n && p.edges[e].source < n && p.edges[e].source in timely;
      assert Filled(p, st.facts, p.edges[e].source);
      assert e in Downstream(p, Forward, p.edges[e].source) && e in row;
      assert Timely(p, timely, On(e)) && m[On(e)] == st.facts[On(e)];
      var j :| 0 <= j < |row| && row[j] == e;
      i := j + 1;
    }
  }

  /** What a visit of `n` computes, and what it leaves alone. */
  lemma VisitComputes<C(!new)>(p: Cfg, dom: Domain<C>, reached: set<BlockId>, st: State<Fact<C>>)
    returns (now: map<Slot, Fact<C>>)
    requires p.WellFormed() && reached <= p.blocks.Keys && st.worklist != {} && st.worklist <= reached
    requires st.facts.Keys == Slots(p) && Visit(EdgeSystem(p, ConstProblem(p, dom)), st).Ok?
    ensures var n, next := First(st.worklist), Visit(EdgeSystem(p, ConstProblem(p, dom)), st).value;
            && ComputeNode(p, ConstProblem(p, dom), n, st.facts) == Ok(now)
            && next == State(st.facts + now, st.worklist - {n} + Woken(EdgeWakes(p, Forward), st.facts, now))
            && (forall s :: s in now ==> s in Slots(p) && OwnerOf(p, Forward, s) == n)
            && (forall e :: e in Downstream(p, Forward, n) ==> On(e) in now)
            && next.facts.Keys == Slots(p)
  {
    var n, prob := First(st.worklist), ConstProblem(p, dom);
    VisitIs(p, prob, st);
    now := ComputeNode(p, prob, n, st.facts).value;
    ComputeOwns(p, prob, n, st.facts);
    hide FromFlow, MeetEdges, ComputeNode, Visit, ConstProblem, Downstream;
  }

  lemma ComputeOwns<C(!new)>(p: Cfg, prob: EdgeProblem<Fact<C>, ()>, n: BlockId, m: map<Slot, Fact<C>>)
    requires p.WellFormed() && n in p.blocks && prob.direction.Forward? && ComputeNode(p, prob, n, m).Ok?
    ensures var now := ComputeNode(p, prob, n, m).value;
            && (forall s :: s in now ==> s in Slots(p) && OwnerOf(p, Forward, s) == n)
            && (forall e :: e in Downstream(p, Forward, n) ==> On(e) in now)
  {
    hide FromFlow, MeetEdges;
    FlowKeys(p, prob, n, MeetEdges(p, prob, n, m).value);
    OwnedSlots(p, prob, n);
    forall e | e in Downstream(p, Forward, n) ensures On(e) in ComputeNode(p, prob, n, m).value {
      var i :| 0 <= i < |Downstream(p, Forward, n)| && Downstream(p, Forward, n)[i] == e;
    }
  }

  lemma WokenAlong<C>(p: Cfg, n: BlockId, before: map<Slot, Fact<C>>, now: map<Slot, Fact<C>>)
    requires p.WellFormed() && forall s :: s in now ==> s in Slots(p) && OwnerOf(p, Forward, s) == n
    ensures forall x :: x in Woken(EdgeWakes(p, Forward), before, now) ==> exists e :: e in p.edges && p.edges[e].source == n && p.edges[e].target == x
  {
    forall x | x in Woken(EdgeWakes(p, Forward), before, now) ensures exists e :: e in p.edges && p.edges[e].source == n && p.edges[e].target == x {
      var s :| s in now && s in EdgeWakes(p, Forward) && x in EdgeWakes(p, Forward)[s];
      assert p.edges[s.edge].source == n && p.edges[s.edge].target == x;
    }
  }

  /** Whoever a visit wakes is reachable; blocks early blocks lead to wake only each other, and later ones. */
  lemma WokenWhere<C>(p: Cfg, reached: set<BlockId>, timely: set<BlockId>, order: seq<BlockId>, n: BlockId,
                      before: map<Slot, Fact<C>>, now: map<Slot, Fact<C>>)
    requires p.WellFormed() && Divided(p, reached, timely, order) && n in reached
    requires forall s :: s in now ==> s in Slots(p) && OwnerOf(p, Forward, s) == n
    ensures var woken := Woken(EdgeWakes(p, Forward), before, now);
            && woken <= reached && (n !in timely ==> woken * timely <= {p.entry} && n !in woken)
            && forall i, j :: 0 <= j <= i < |order| && order[i] == n ==> order[j] !in woken
  {
    hide Downhill;
    WokenAlong(p, n, before, now);
    forall x | x in Woken(EdgeWakes(p, Forward), before, now)
      ensures x in reached && (n !in timely ==> (x in timely ==> x == p.entry) && x != n)
      ensures forall i, j :: 0 <= j <= i < |order| && order[i] == n ==> order[j] != x
    {
      var e :| e in p.edges && p.edges[e].source == n && p.edges[e].target == x;
      EdgeLeads(p, e);
      NoSelf(p, reached - timely, order, e);
    }
  }

  lemma NoSelf(p: Cfg, c: set<BlockId>, order: seq<BlockId>, e: EdgeId)
    requires Downhill(p, c, order) && e in p.edges
    ensures p.edges[e].source in c && p.edges[e].target in c ==> p.edges[e].source != p.edges[e].target
    ensures forall i, j :: 0 <= j <= i < |order| && order[i] == p.edges[e].source ==> order[j] != p.edges[e].target
  {
    if p.edges[e].source in c {
      assert p.edges[e].source in Elems(order);
    }
  }

  lemma PartTimely<C>(p: Cfg, timely: set<BlockId>, facts: map<Slot, Fact<C>>, n: BlockId, now: map<Slot, Fact<C>>)
    requires n in timely && forall s :: s in now ==> s in Slots(p) && OwnerOf(p, Forward, s) == n
    ensures Part(p, timely, facts + now) == Part(p, timely, facts) + now
  {
    var (a, b) := (Part(p, timely, facts + now), Part(p, timely, facts) + now);
    assert a.Keys == b.Keys;
    forall s | s in a ensures a[s] == b[s] {
      assert s in now ==> Timely(p, timely, s);
    }
  }

  lemma PartLate<C>(p: Cfg, timely: set<BlockId>, facts: map<Slot, Fact<C>>, n: BlockId, now: map<Slot, Fact<C>>)
    requires n !in timely && now.Keys <= facts.Keys && forall s :: s in now ==> s in Slots(p) && OwnerOf(p, Forward, s) == n
    ensures Part(p, timely, facts + now) == Part(p, timely, facts)
  {
    var (a, b) := (Part(p, timely, facts + now), Part(p, timely, facts));
    assert a.Keys == b.Keys;
    forall s | s in a ensures a[s] == b[s] {
      assert s in now ==> !Timely(p, timely, s);
    }
  }

  lemma CodeVisit(order: seq<BlockId>, w: set<BlockId>, n: BlockId, woken: set<BlockId>, i: nat)
    requires i < |order| && order[i] == n && n in w && n !in woken
    requires forall j :: 0 <= j < i ==> order[j] != n && order[j] !in woken
    ensures Code(order, w - {n} + woken) < Code(order, w)
  {
    CodeFalls(order, w, w - {n} + woken, i);
  }

  /** What a visit keeps, given what it does to its own slots. */
  lemma PrimedAfter<C(!new)>(p: Cfg, dom: Domain<C>, laws: Laws<C>, reached: set<BlockId>, timely: set<BlockId>, st: State<Fact<C>>,
                             n: BlockId, now: map<Slot, Fact<C>>, woken: set<BlockId>)
    requires p.WellFormed() && Primed(p, dom, laws, reached, timely, st) && n in reached && woken <= reached
    requires forall s :: s in now ==> s in Slots(p) && OwnerOf(p, Forward, s) == n
    requires Rises(p, dom, laws, Part(p, timely, st.facts + now))
    requires n in timely && n !in woken ==> Filled(p, st.facts + now, n)
    ensures Primed(p, dom, laws, reached, timely, State(st.facts + now, st.worklist - {n} + woken))
  {
    hide Rises, Part, Mentioned, Full, Filled;
    var w := st.worklist - {n} + woken;
    forall x | x in timely && x !in w ensures Filled(p, st.facts + now, x) {
      if x != n {
        assert Filled(p, st.facts, x);
        StillFilled(p, st.facts, now, n, x);
      }
    }
    assert Unreached(p, reached, st.facts + now);
  }

  /** A visit of a block early blocks lead to leaves the part alone and lowers the number of the queued ones, with the
      entry as the last of them. */
  lemma LateVisit<C(!new)>(p: Cfg, dom: Domain<C>, laws: Laws<C>, reached: set<BlockId>, timely: set<BlockId>, order: seq<BlockId>,
                           st: State<Fact<C>>)
    requires p.WellFormed() && Divided(p, reached, timely, order) && Primed(p, dom, laws, reached, timely, st)
    requires st.worklist != {} && First(st.worklist) !in timely && Visit(EdgeSystem(p, ConstProblem(p, dom)), st).Ok?
    ensures var next := Visit(EdgeSystem(p, ConstProblem(p, dom)), st).value;
            && Primed(p, dom, laws, reached, timely, next) && Part(p, timely, next.facts) == Part(p, timely, st.facts)
            && next.worklist * (timely - {p.entry}) == st.worklist * (timely - {p.entry})
            && Code(order + [p.entry], next.worklist) < Code(order + [p.entry], st.worklist)
  {
    hide Rises, Full, Code, Downhill, Part, Mentioned, Visit, Filled, Unreached;
    var n := First(st.worklist);
    var now := VisitComputes(p, dom, reached, st);
    var woken := Woken(EdgeWakes(p, Forward), st.facts, now);
    WokenWhere(p, reached, timely, order, n, st.facts, now);
    var i := IndexOf(p, reached - timely, order, n);
    CodeVisit(order + [p.entry], st.worklist, n, woken, i);
    PartLate(p, timely, st.facts, n, now);
    PrimedAfter(p, dom, laws, reached, timely, st, n, now, woken);
  }

  lemma IndexOf(p: Cfg, c: set<BlockId>, order: seq<BlockId>, n: BlockId) returns (i: nat)
    requires Downhill(p, c, order) && n in c
    ensures i < |order| && order[i] == n && forall j :: 0 <= j < i ==> order[j] != n
  {
    assert n in Elems(order);
    i :| 0 <= i < |order| && order[i] == n;
    while exists j :: 0 <= j < i && order[j] == n
      invariant i < |order| && order[i] == n
      decreases i
    {
      var j: nat :| j < i && order[j] == n;
      i := j;
    }
  }

  lemma StillFilled<C>(p: Cfg, before: map<Slot, Fact<C>>, now: map<Slot, Fact<C>>, n: BlockId, x: BlockId)
    requires p.WellFormed() && Filled(p, before, x) && x != n
    requires forall s :: s in now ==> s in Slots(p) && OwnerOf(p, Forward, s) == n
    ensures Filled(p, before + now, x)
  {
    forall e | e in Downstream(p, Forward, x) ensures On(e) !in now {
    }
  }

  /** The part has more facts settled, or the same facts and fewer blocks of it queued, or the entry at least. */
  ghost predicate Progress<C(!new)>(laws: Laws<C>, p: Cfg, timely: set<BlockId>, order: seq<BlockId>, st: State<Fact<C>>,
                                    next: State<Fact<C>>)
    requires st.facts.Keys == next.facts.Keys == Slots(p)
  {
    var o := FactOrder(laws, Mentioned(p));
    || Headroom(o, Slots(p), Part(p, timely, next.facts)) < Headroom(o, Slots(p), Part(p, timely, st.facts))
    || (Part(p, timely, next.facts) == Part(p, timely, st.facts)
        && (|next.worklist * (timely - {p.entry})| < |st.worklist * (timely - {p.entry})|
            || (next.worklist * (timely - {p.entry}) == st.worklist * (timely - {p.entry})
                && Code(order + [p.entry], next.worklist) < Code(order + [p.entry], st.worklist))))
  }

  /** Visiting `n` in its part is a visit of the problem without the lapse. */
  lemma PartVisit<C(!new)>(p: Cfg, dom: Domain<C>, laws: Laws<C>, timely: set<BlockId>, facts: map<Slot, Fact<C>>, n: BlockId,
                           now: map<Slot, Fact<C>>)
    requires p.WellFormed() && LawfulDomain(dom, laws) && n in timely && n in p.blocks && facts.Keys == Slots(p)
    requires Rises(p, dom, laws, Part(p, timely, facts)) && ComputeNode(p, StrictProblem(p, dom), n, Part(p, timely, facts)) == Ok(now)
    requires forall s :: s in now ==> s in Slots(p) && OwnerOf(p, Forward, s) == n
    ensures Part(p, timely, facts + now) == Part(p, timely, facts) + now
    ensures Rises(p, dom, laws, Part(p, timely, facts) + now)
    ensures var o, m := FactOrder(laws, Mentioned(p)), Part(p, timely, facts);
            Headroom(o, Slots(p), m + now) < Headroom(o, Slots(p), m) || m + now == m
  {
    hide LawfulDomain, Part, Mentioned, Headroom, FactOrder, Leq, Rises, StrictProblem, ComputeNode;
    PartTimely(p, timely, facts, n, now);
    StrictVisit(p, dom, laws, Part(p, timely, facts), n, now);
    RoomAfter(dom, laws, Mentioned(p), Slots(p), Part(p, timely, facts), Part(p, timely, facts) + now);
  }

  /** A visit of the problem without the lapse raises facts, and stays where a visit would raise them again. */
  lemma StrictVisit<C(!new)>(p: Cfg, dom: Domain<C>, laws: Laws<C>, m: map<Slot, Fact<C>>, n: BlockId, now: map<Slot, Fact<C>>)
    requires p.WellFormed() && LawfulDomain(dom, laws) && n in p.blocks && Rises(p, dom, laws, m)
    requires ComputeNode(p, StrictProblem(p, dom), n, m) == Ok(now)
    ensures Rises(p, dom, laws, m + now) && m.Keys == (m + now).Keys == Slots(p)
    ensures forall s :: s in Slots(p) ==> FactOrder(laws, Mentioned(p)).le(m[s], (m + now)[s])
  {
    hide LawfulDomain, Monotone, Lawful, IsOrder, Mentioned, FactOrder, Ascending, Rises, Slots;
    var strict, o, st := StrictProblem(p, dom), FactOrder(laws, Mentioned(p)), State(m, {n});
    StrictMonotone(p, dom, laws);
    EdgeLawful(p, strict, o);
    VisitIs(p, strict, st);
    AscendingAnyway(p, dom, laws, m, {n});
    VisitAscends(EdgeSystem(p, strict), o, st);
    AscendingAnyway(p, dom, laws, m + now, Visit(EdgeSystem(p, strict), st).value.worklist);
    VisitRaises(EdgeSystem(p, strict), o, st);
  }

  lemma AscendingAnyway<C(!new)>(p: Cfg, dom: Domain<C>, laws: Laws<C>, m: map<Slot, Fact<C>>, w: set<nat>)
    ensures var sys, o := EdgeSystem(p, StrictProblem(p, dom)), FactOrder(laws, Mentioned(p));
            Ascending(sys, o, State(m, w)) <==> Rises(p, dom, laws, m) && w <= p.blocks.Keys
  {
  }

  lemma RoomAfter<C(!new)>(dom: Domain<C>, laws: Laws<C>, u: set<Var>, slots: set<Slot>, m: map<Slot, Fact<C>>, m': map<Slot, Fact<C>>)
    requires LawfulDomain(dom, laws) && m.Keys == m'.Keys == slots
    requires forall s :: s in slots ==> FactOrder(laws, u).le(m[s], m'[s])
    ensures Headroom(FactOrder(laws, u), slots, m') < Headroom(FactOrder(laws, u), slots, m) || m' == m
  {
    hide LawfulDomain, IsOrder, FactOrder;
    FactOrderOk(dom, laws, u);
    HeadroomShrinks(FactOrder(laws, u), map[], slots, m, m');
    SameWhere(slots, m, m');
  }

  lemma SameWhere<F>(slots: set<Slot>, m: map<Slot, F>, m': map<Slot, F>)
    requires m.Keys == m'.Keys == slots
    ensures (forall s :: s in slots ==> m[s] == m'[s]) ==> m' == m
  {
  }

  /** When the part stays as it is, nobody is woken. */
  lemma NobodyWoken<C>(p: Cfg, timely: set<BlockId>, facts: map<Slot, Fact<C>>, n: BlockId, now: map<Slot, Fact<C>>)
    requires n in timely && facts.Keys == Slots(p) && Part(p, timely, facts) + now == Part(p, timely, facts)
    requires forall s :: s in now ==> s in Slots(p) && OwnerOf(p, Forward, s) == n
    ensures Woken(EdgeWakes(p, Forward), facts, now) == {}
  {
    forall s | s in now ensures now[s] == facts[s] {
      assert (Part(p, timely, facts) + now)[s] == now[s];
    }
  }

  lemma FewerQueued(w: set<nat>, timely: set<nat>, n: nat)
    requires n in w && n in timely
    ensures |(w - {n}) * timely| < |w * timely|
  {
    assert w * timely == (w - {n}) * timely + {n};
  }

  /** A visit of a block entered in time raises the part, or leaves it and takes the block off the worklist. */
  lemma TimelyVisit<C(!new)>(p: Cfg, dom: Domain<C>, laws: Laws<C>, reached: set<BlockId>, timely: set<BlockId>, order: seq<BlockId>,
                             st: State<Fact<C>>)
    requires p.WellFormed() && LawfulDomain(dom, laws) && Divided(p, reached, timely, order) && Primed(p, dom, laws, reached, timely, st)
    requires KeysWithin(Mentioned(p), st.facts) && st.worklist != {} && First(st.worklist) in timely
    ensures Visit(EdgeSystem(p, ConstProblem(p, dom)), st).Ok?
    ensures Primed(p, dom, laws, reached, timely, Visit(EdgeSystem(p, ConstProblem(p, dom)), st).value)
    ensures Progress(laws, p, timely, order, st, Visit(EdgeSystem(p, ConstProblem(p, dom)), st).value)
  {
    hide LawfulDomain, Rises, Part, Downhill, FactOrder, Headroom, Mentioned, Visit, Slots, Full, Unreached;
    var n := First(st.worklist);
    TimelyFlows(p, dom, laws, reached, timely, order, st);
    VisitIs(p, ConstProblem(p, dom), st);
    var now := VisitComputes(p, dom, reached, st);
    var woken := Woken(EdgeWakes(p, Forward), st.facts, now);
    WokenWhere(p, reached, timely, order, n, st.facts, now);
    PartVisit(p, dom, laws, timely, st.facts, n, now);
    PrimedAfter(p, dom, laws, reached, timely, st, n, now, woken);
    if Part(p, timely, st.facts + now) == Part(p, timely, st.facts) {
      NobodyWoken(p, timely, st.facts, n, now);
      assert st.worklist - {n} + woken == st.worklist - {n};
      if n == p.entry {
        assert (st.worklist - {n}) * (timely - {n}) == st.worklist * (timely - {n});
        EntryLast(p, reached - timely, order, st.worklist);
      } else {
        FewerQueued(st.worklist, timely - {p.entry}, n);
      }
    }
  }

  lemma EntryLast(p: Cfg, c: set<BlockId>, order: seq<BlockId>, w: set<BlockId>)
    requires Downhill(p, c, order) && p.entry !in c && p.entry in w
    ensures Code(order + [p.entry], w - {p.entry}) < Code(order + [p.entry], w)
  {
    forall j | 0 <= j < |order| ensures order[j] != p.entry {
      assert order[j] in Elems(order);
    }
    CodeFalls(order + [p.entry], w, w - {p.entry}, |order|);
  }

  /** What a visit of a block entered in time computes is what the problem without the lapse computes, and full. */
  lemma TimelyFlows<C(!new)>(p: Cfg, dom: Domain<C>, laws: Laws<C>, reached: set<BlockId>, timely: set<BlockId>, order: seq<BlockId>,
                             st: State<Fact<C>>)
    requires p.WellFormed() && LawfulDomain(dom, laws) && Divided(p, reached, timely, order) && Primed(p, dom, laws, reached, timely, st)
    requires KeysWithin(Mentioned(p), st.facts) && st.worklist != {} && First(st.worklist) in timely
    ensures var n := First(st.worklist); var now := ComputeNode(p, ConstProblem(p, dom), n, st.facts);
            && now.Ok? && ComputeNode(p, StrictProblem(p, dom), n, Part(p, timely, st.facts)) == now
            && forall s :: s in now.value ==> Full(Mentioned(p), now.value[s])
  {
    hide LawfulDomain, Rises, Full, Part, Filled, Downhill, Primed, FromFlow;
    var n := First(st.worklist);
    NextFull(p, dom, laws, reached, timely, order, st);
    var f := MeetEdges(p, ConstProblem(p, dom), n, st.facts).value;
    SameFlow(p, dom, laws, n, f);
    FullFlow(p, dom, laws, n, f);
  }

  /** When no early block leads to a cycle, but through the entry, every solve ends. */
  lemma EarlyAcyclicEnds<C(!new)>(p: Cfg, dom: Domain<C>, laws: Laws<C>) returns (enough: nat)
    requires p.WellFormed() && EarlyAcyclic(p) && LawfulDomain(dom, laws)
    ensures Ends(EdgeSystem(p, ConstProblem(p, dom)), ReachableBlocks(p), enough)
  {
    var reached := ReachableBlocks(p);
    ReachableLive(p);
    var timely, order := Divide(p, reached);
    StartsPrimed(p, dom, laws, reached, timely);
    enough := EndsFrom(p, dom, laws, reached, timely, order, 0, Initial(EdgeSystem(p, ConstProblem(p, dom)), reached));
  }

  lemma ReachableLive(p: Cfg)
    requires p.WellFormed()
    ensures forall b :: b in ReachableBlocks(p) <==> ReachableBlock(p, b)
  {
    forall b | ReachableBlock(p, b) ensures b in p.blocks {
      ReachableInside(p, b);
    }
  }

  /** Every visit makes progress. */
  lemma PrimedVisit<C(!new)>(p: Cfg, dom: Domain<C>, laws: Laws<C>, reached: set<BlockId>, timely: set<BlockId>, order: seq<BlockId>,
                             k: nat, st: State<Fact<C>>)
    returns (next: State<Fact<C>>)
    requires p.WellFormed() && LawfulDomain(dom, laws) && Divided(p, reached, timely, order) && Primed(p, dom, laws, reached, timely, st)
    requires RunFor(EdgeSystem(p, ConstProblem(p, dom)), reached, k) == Ok(st) && st.worklist != {}
    ensures RunFor(EdgeSystem(p, ConstProblem(p, dom)), reached, k + 1) == Ok(next) && Primed(p, dom, laws, reached, timely, next)
    ensures st.facts.Keys == next.facts.Keys == Slots(p) && Progress(laws, p, timely, order, st, next)
  {
    hide LawfulDomain, Visit, FactOrder, Headroom, Code, Mentioned, Part, Rises, Filled, Unreached, KeysWithin, Downhill;
    DividedLive(p, reached, timely, order);
    RunKeys(p, dom, reached, k);
    RunKeys(p, dom, reached, k + 1);
    next := Visit(EdgeSystem(p, ConstProblem(p, dom)), st).value;
    if First(st.worklist) in timely {
      TimelyVisit(p, dom, laws, reached, timely, order, st);
    } else {
      LateVisit(p, dom, laws, reached, timely, order, st);
    }
  }

  lemma {:induction false} EndsFrom<C(!new)>(p: Cfg, dom: Domain<C>, laws: Laws<C>, reached: set<BlockId>, timely: set<BlockId>,
                                             order: seq<BlockId>, k: nat, st: State<Fact<C>>)
    returns (enough: nat)
    requires p.WellFormed() && LawfulDomain(dom, laws) && Divided(p, reached, timely, order) && Primed(p, dom, laws, reached, timely, st)
    requires RunFor(EdgeSystem(p, ConstProblem(p, dom)), reached, k) == Ok(st)
    ensures Ends(EdgeSystem(p, ConstProblem(p, dom)), reached, enough)
    decreases Headroom(FactOrder(laws, Mentioned(p)), Slots(p), Part(p, timely, st.facts)), |st.worklist * (timely - {p.entry})|,
              Code(order + [p.entry], st.worklist)
  {
    hide LawfulDomain, Divided, Primed, FactOrder, Headroom, Code, Mentioned, Part, RunFor, Cfg.WellFormed;
    enough := k;
    if st.worklist != {} {
      var next := PrimedVisit(p, dom, laws, reached, timely, order, k, st);
      enough := EndsFrom(p, dom, laws, reached, timely, order, k + 1, next);
    }
  }

  lemma DividedLive(p: Cfg, reached: set<BlockId>, timely: set<BlockId>, order: seq<BlockId>)
    requires Divided(p, reached, timely, order)
    ensures reached <= p.blocks.Keys
  {
  }

  lemma WokenReachable<C>(p: Cfg, n: BlockId, before: map<Slot, Fact<C>>, now: map<Slot, Fact<C>>)
    requires p.WellFormed() && ReachableBlock(p, n) && forall s :: s in now ==> s in Slots(p) && OwnerOf(p, Forward, s) == n
    ensures Woken(EdgeWakes(p, Forward), before, now) <= ReachableBlocks(p)
  {
    ReachableLive(p);
    WokenAlong(p, n, before, now);
    forall x | x in Woken(EdgeWakes(p, Forward), before, now) ensures x in ReachableBlocks(p) {
      var e :| e in p.edges && p.edges[e].source == n && p.edges[e].target == x;
      EdgeLeads(p, e);
    }
  }

  ghost predicate NoDeparture(p: Cfg) { forall e :: e in p.edges ==> !Departs(p, p.edges[e]) }

  /** Some edge from `n` to `x` carries a new fact. */
  ghost predicate WokenBy<C>(p: Cfg, n: BlockId, before: map<Slot, Fact<C>>, after: map<Slot, Fact<C>>, x: BlockId) {
    exists e :: e in p.edges && p.edges[e].source == n && p.edges[e].target == x && On(e) in before && On(e) in after && before[On(e)] != after[On(e)]
  }

  /** Who is woken, exactly: whoever an edge with a new fact leads to. */
  lemma WokenExactly<C>(p: Cfg, n: BlockId, before: map<Slot, Fact<C>>, now: map<Slot, Fact<C>>)
    requires p.WellFormed() && before.Keys == Slots(p)
    requires forall s :: s in now ==> s in Slots(p) && OwnerOf(p, Forward, s) == n
    requires forall e :: e in Downstream(p, Forward, n) ==> On(e) in now
    ensures forall x :: x in Woken(EdgeWakes(p, Forward), before, now) ==> WokenBy(p, n, before, before + now, x)
    ensures forall e {:trigger p.edges[e]} :: e in p.edges && p.edges[e].source == n && On(e) in before && (before + now)[On(e)] != before[On(e)] ==>
              p.edges[e].target in Woken(EdgeWakes(p, Forward), before, now)
  {
    WokenOnly(p, n, before, now);
    forall e | e in p.edges && p.edges[e].source == n && On(e) in before && (before + now)[On(e)] != before[On(e)]
      ensures p.edges[e].target in Woken(EdgeWakes(p, Forward), before, now)
    {
      assert On(e) in now && EdgeWakes(p, Forward)[On(e)] == {p.edges[e].target};
    }
  }

  lemma WokenOnly<C>(p: Cfg, n: BlockId, before: map<Slot, Fact<C>>, now: map<Slot, Fact<C>>)
    requires forall s :: s in now ==> s in Slots(p) && OwnerOf(p, Forward, s) == n
    ensures forall x :: x in Woken(EdgeWakes(p, Forward), before, now) ==> WokenBy(p, n, before, before + now, x)
  {
    forall x | x in Woken(EdgeWakes(p, Forward), before, now) ensures WokenBy(p, n, before, before + now, x) {
      var s :| s in now && s in before && now[s] != before[s] && s in EdgeWakes(p, Forward) && x in EdgeWakes(p, Forward)[s];
      assert p.edges[s.edge].source == n && p.edges[s.edge].target == x && (before + now)[s] == now[s];
    }
  }

  /** One visit in a program without departing edges: the block's out fact goes onto its edges, nothing else changes, and
      only blocks its edges lead to are woken. */
  lemma QuietVisit<C(!new)>(p: Cfg, dom: Domain<C>, st: State<Fact<C>>)
    requires p.WellFormed() && NoDeparture(p) && st.worklist != {} && st.worklist <= ReachableBlocks(p) && st.facts.Keys == Slots(p)
    requires Visit(EdgeSystem(p, ConstProblem(p, dom)), st).Ok?
    ensures var n, next := First(st.worklist), Visit(EdgeSystem(p, ConstProblem(p, dom)), st).value;
            && MeetEdges(p, ConstProblem(p, dom), n, st.facts).Ok? && next.facts.Keys == Slots(p)
            && st.worklist - {n} <= next.worklist <= ReachableBlocks(p)
            && (forall x :: x in next.worklist - (st.worklist - {n}) ==> WokenBy(p, n, st.facts, next.facts, x))
            && (forall e {:trigger p.edges[e]} :: e in p.edges && p.edges[e].source == n && On(e) in st.facts && next.facts[On(e)] != st.facts[On(e)] ==>
                  p.edges[e].target in next.worklist)
            && forall e {:trigger next.facts[On(e)]} :: e in p.edges ==>
                 On(e) in st.facts
                 && next.facts[On(e)] == if p.edges[e].source != n then st.facts[On(e)]
                                         else BlockOut(p, dom, n, MeetEdges(p, ConstProblem(p, dom), n, st.facts).value)
  {
    hide Visit, BlockOut, NoDeparture, ReachableBlock, FromFlow, MeetEdges;
    var n, prob := First(st.worklist), ConstProblem(p, dom);
    ReachableLive(p);
    var now := VisitComputes(p, dom, ReachableBlocks(p), st);
    WokenReachable(p, n, st.facts, now);
    WokenExactly(p, n, st.facts, now);
    CarriesOut(p, dom, n, MeetEdges(p, prob, n, st.facts).value);
    OnlyOwn(p, n, st.facts, now);
  }

  lemma OnlyOwn<C>(p: Cfg, n: BlockId, facts: map<Slot, Fact<C>>, now: map<Slot, Fact<C>>)
    requires facts.Keys == Slots(p) && forall s :: s in now ==> s in Slots(p) && OwnerOf(p, Forward, s) == n
    ensures forall e :: e in p.edges ==> On(e) in facts && (p.edges[e].source != n ==> (facts + now)[On(e)] == facts[On(e)])
  {
    forall e | e in p.edges && p.edges[e].source != n ensures On(e) !in now {
    }
  }

  /** Without departing edges every edge carries the out fact. */
  lemma CarriesOut<C(!new)>(p: Cfg, dom: Domain<C>, n: BlockId, f: Fact<C>)
    requires p.WellFormed() && n in p.blocks && NoDeparture(p)
    requires FromFlow(p, ConstProblem(p, dom), n, f).Ok?
    ensures forall e :: e in p.edges && p.edges[e].source == n ==>
              && On(e) in FromFlow(p, ConstProblem(p, dom), n, f).value
              && FromFlow(p, ConstProblem(p, dom), n, f).value[On(e)] == BlockOut(p, dom, n, f)
  {
    hide BlockOut, Departs;
    var row := Downstream(p, Forward, n);
    EdgesOutAt(ConstProblem(p, dom), row, |row|, f, BlockOut(p, dom, n, f));
    forall e | e in p.edges && p.edges[e].source == n
      ensures On(e) in FromFlow(p, ConstProblem(p, dom), n, f).value
      ensures FromFlow(p, ConstProblem(p, dom), n, f).value[On(e)] == BlockOut(p, dom, n, f)
    {
      assert e in row;
      var i :| 0 <= i < |row| && row[i] == e;
      assert !Departs(p, p.edges[e]);
    }
  }

  /** A block at rest sends what it makes of what it meets. */
  lemma AtRest<C(!new)>(p: Cfg, dom: Domain<C>, m: map<Slot, Fact<C>>, n: BlockId, e: EdgeId)
    requires p.WellFormed() && NoDeparture(p) && m.Keys == Slots(p) && n in p.blocks && EquationsAt(p, ConstProblem(p, dom), m, n)
    requires e in p.edges && p.edges[e].source == n
    ensures MeetEdges(p, ConstProblem(p, dom), n, m).Ok?
    ensures On(e) in m && m[On(e)] == BlockOut(p, dom, n, MeetEdges(p, ConstProblem(p, dom), n, m).value)
  {
    hide BlockOut, MeetEdges;
    assert e in Downstream(p, Forward, n);
  }

  /** Constant propagation over the blocks reachable from the entry. */
  method Compute<C(==)>(p: Cfg, dom: Domain<C>, limit: Option<nat>, ghost enough: nat) returns (r: Result<Solution<Fact<C>>, Stop<()>>)
    requires p.WellFormed()
    requires limit.None? ==> Ends(EdgeSystem(p, ConstProblem(p, dom)), ReachableBlocks(p), enough)
    ensures SolveOk(EdgeSystem(p, ConstProblem(p, dom)), ReachableBlocks(p), limit, r)
  {
    var found := Reach(p, {p.entry}, None);
    forall b ensures b in found <==> b in ReachableBlocks(p) {
      ReachableInside(p, b);
    }
    assert found == ReachableBlocks(p);
    r := TrySolve(p, ConstProblem(p, dom), found, limit, enough);
  }

  /** In a program none of whose early blocks leads to a cycle, no limit is needed. */
  method ComputeAcyclic<C(==, !new)>(p: Cfg, dom: Domain<C>, ghost laws: Laws<C>) returns (r: Result<Solution<Fact<C>>, Stop<()>>)
    requires p.WellFormed() && EarlyAcyclic(p) && LawfulDomain(dom, laws)
    ensures SolveOk(EdgeSystem(p, ConstProblem(p, dom)), ReachableBlocks(p), None, r)
  {
    ghost var enough := EarlyAcyclicEnds(p, dom, laws);
    r := Compute(p, dom, None, enough);
  }
}
