/** What a build accepts, and what the graph it returns does. */
module BuilderRuns {
  import opened EdgeKinds
  import opened StructuredCode
  import opened Wrappers
  import opened Builder
  import opened BuilderLayout
  import opened BuilderStack
  import opened BuilderNesting
  import opened BuilderPaths
  import opened BuilderFollows
  import opened BuilderReaches

  ghost predicate HasIncoming(g: Graph, b: nat) {
    exists p, e :: 0 <= p < |g| && 0 <= e < |g[p].out| && g[p].out[e].1 == b
  }

  /** The last block can go: it is not the entry, holds nothing, and no edge leads to it. */
  ghost predicate LastTrims(g: Graph) {
    |g| > 1 && g[|g| - 1].insts == [] && !HasIncoming(g, |g| - 1)
  }

  ghost function Trimmed(g: Graph): Graph {
    if LastTrims(g) then Trimmed(g[..|g| - 1]) else g
  }

  ghost function BuildOf(ts: seq<Tok>): Result<Graph, BuildError> {
    match ProcessAll(Initial(), ts)
    case Err(e) => Err(e)
    case Ok(st) => if st.scopes != [] then Err(UnclosedScopes(|st.scopes|)) else Ok(Trimmed(st.g))
  }

  /** The events of some path from the entry. */
  ghost predicate Trace(g: Graph, w: seq<Event>) { exists to: At, n: nat :: Path(g, At(0, 0), w, to, n) }

  /** Removing a last block no edge leads to changes no path that starts elsewhere. */
  lemma {:induction false} PathWithoutLast(g: Graph, from: At, w: seq<Event>, to: At, n: nat)
    requires LastTrims(g) && from.block != |g| - 1
    ensures Path(g, from, w, to, n) <==> Path(g[..|g| - 1], from, w, to, n)
    ensures Path(g, from, w, to, n) ==> to.block != |g| - 1
    decreases n, 0
  {
    var h := g[..|g| - 1];
    if n > 0 && from.block < |h| {
      if from.idx < |h[from.block].insts| {
        if w != [] {
          PathWithoutLast(g, At(from.block, from.idx + 1), w[1..], to, n - 1);
        }
      } else {
        forall e | 0 <= e < |h[from.block].out|
          ensures Crosses(g, h[from.block].out[e], w, to, n - 1) <==> Crosses(h, h[from.block].out[e], w, to, n - 1)
          ensures Crosses(g, h[from.block].out[e], w, to, n - 1) ==> to.block != |g| - 1
        {
          CrossWithoutLast(g, from.block, e, w, to, n - 1);
        }
      }
    }
  }

  lemma {:induction false} CrossWithoutLast(g: Graph, b: nat, e: nat, w: seq<Event>, to: At, n: nat)
    requires LastTrims(g) && b < |g| && e < |g[b].out|
    ensures Crosses(g, g[b].out[e], w, to, n) <==> Crosses(g[..|g| - 1], g[b].out[e], w, to, n)
    ensures Crosses(g, g[b].out[e], w, to, n) ==> to.block != |g| - 1
    decreases n, 1
  {
    var edge := g[b].out[e];
    PathWithoutLast(g, At(edge.1, 0), w, to, n);
    if w != [] {
      PathWithoutLast(g, At(edge.1, 0), w[1..], to, n);
    }
  }

  /** Trimming leaves every path from the entry as it is, drops only empty blocks off the end, none of them reachable, and
      goes on until the last block cannot go. */
  lemma {:induction false} TrimKeeps(g: Graph)
    requires g != []
    ensures var h := Trimmed(g);
            && 0 < |h| <= |g| && h == g[..|h|] && !LastTrims(h)
            && (forall b :: |h| <= b < |g| ==> g[b].insts == [])
            && forall w, to, n :: Path(g, At(0, 0), w, to, n) <==> Path(h, At(0, 0), w, to, n)
    ensures forall w, to, n :: Path(g, At(0, 0), w, to, n) ==> to.block < |Trimmed(g)| || to.block >= |g|
    decreases |g|
  {
    if LastTrims(g) {
      var less := g[..|g| - 1];
      TrimKeeps(less);
      forall w, to, n: nat
        ensures Path(g, At(0, 0), w, to, n) <==> Path(less, At(0, 0), w, to, n)
        ensures Path(g, At(0, 0), w, to, n) ==> to.block != |g| - 1
      {
        PathWithoutLast(g, At(0, 0), w, to, n);
      }
    } else {
      assert g[..|g|] == g;
    }
  }

  /** A break needs a scope to leave. */
  lemma {:induction false} NoBreaks(c: Code, g: Graph, current: nat, header: nat, inLoop: bool)
    requires Scoped(c, inLoop, false)
    ensures Place(c, g, current, header).breaks == []
    decreases c, 1
  {
    if !c.Done? {
      var first := PlaceHead(c, g, current, header);
      NoBreaks(c.next, first.g, first.current, header, inLoop);
      if c.If? {
        NoBreaks(c.body, Opened(g, current, c.open, ConditionalTrue), |g|, header, inLoop);
        var body := Place(c.body, Opened(g, current, c.open, ConditionalTrue), |g|, header);
        NoArmBreaks(c.arms, body.g, current, ConditionalFalse, body.current, header, inLoop);
      }
    }
  }

  lemma {:induction false} NoArmBreaks(a: Arms, g: Graph, pre: nat, kind: EdgeKind, current: nat, header: nat, inLoop: bool)
    requires ScopedArms(a, ConditionalAlternate, inLoop, false)
    ensures PlaceArms(a, g, pre, kind, current, header).breaks == []
    decreases a, 1
  {
    if a.Arm? {
      var fork := AddEdge(NewBlock(g, [a.lead]), pre, kind, |g|);
      NoBreaks(a.body, fork, |g|, header, inLoop);
      var body := Place(a.body, fork, |g|, header);
      NoArmBreaks(a.rest, body.g, pre, kind, body.current, header, inLoop);
    }
  }

  /** A well-nested program breaks and continues only out of what is around it. */
  lemma {:induction false} StaysInside(c: Code, w: seq<Event>, o: Outcome, inLoop: bool, breakable: bool)
    requires Scoped(c, inLoop, breakable) && Runs(c, w, o)
    ensures (o == Broke ==> breakable) && (o == Continued ==> inLoop)
    decreases c, 1
  {
    if !c.Done? {
      if o != Normal && Head(c, w, o) {
        HeadStaysInside(c, w, o, inLoop, breakable);
      } else {
        var i :| 0 <= i <= |w| && Head(c, w[..i], Normal) && Runs(c.next, w[i..], o);
        StaysInside(c.next, w[i..], o, inLoop, breakable);
      }
    }
  }

  lemma {:induction false} HeadStaysInside(c: Code, w: seq<Event>, o: Outcome, inLoop: bool, breakable: bool)
    requires !c.Done? && Scoped(c, inLoop, breakable) && Head(c, w, o)
    ensures (o == Broke ==> breakable) && (o == Continued ==> inLoop)
    decreases c, 0
  {
    if w != [] && o in {Broke, Continued} {
      if c.Loop? {
        var n: nat :| Loops(c.body, n, w[1..], o);
        LoopsEnd(c.body, n, w[1..], o);
      } else if !c.Simple? {
        var v := w[1..];
        if v != [] && v[0] == Take(FirstChoice(c)) && Runs(c.body, v[1..], o) {
          StaysInside(c.body, v[1..], o, inLoop, breakable || c.Switch?);
        } else {
          ArmStaysInside(c.arms, ArmChoice(c), v, o, if c.If? then ConditionalAlternate else FlowEffect.SwitchCase, inLoop, breakable || c.Switch?);
        }
      }
    }
  }

  lemma {:induction false} ArmStaysInside(a: Arms, choice: Choice, v: seq<Event>, o: Outcome, lead: FlowEffect, inLoop: bool,
                                          breakable: bool)
    requires ScopedArms(a, lead, inLoop, breakable) && RunsArm(a, choice, v, o)
    ensures (o == Broke ==> breakable) && (o == Continued ==> inLoop)
    decreases a, 1
  {
    if |v| >= 2 && v[0] == Take(choice) && v[1] == Ex(a.lead) && Runs(a.body, v[2..], o) {
      StaysInside(a.body, v[2..], o, inLoop, breakable);
    } else if RunsArm(a.rest, choice, v, o) {
      ArmStaysInside(a.rest, choice, v, o, lead, inLoop, breakable);
    }
  }

  lemma {:induction false} LoopsEnd(body: Code, n: nat, u: seq<Event>, o: Outcome)
    requires Loops(body, n, u, o)
    ensures o in {Normal, Stopped, Cut}
    decreases n
  {
    if o !in {Normal, Stopped, Cut} {
      var i :| 0 <= i <= |u| && (Runs(body, u[..i], Normal) || Runs(body, u[..i], Continued)) && Loops(body, n - 1, u[i..], o);
      LoopsEnd(body, n - 1, u[i..], o);
    }
  }

  /** A whole program, placed from the entry, is final as it stands. */
  lemma WholeFinal(c: Code)
    requires Scoped(c, false, false)
    ensures var p := Place(c, Initial().g, 0, 0);
            && Final(p.g, 1, 0, p, 0) && p.current < |p.g| && p.g[p.current].out == [] && p.breaks == []
            && ProcessAll(Initial(), Flatten(c)) == Ok(State(p.g, p.current, []))
  {
    var p := Place(c, Initial().g, 0, 0);
    NoBreaks(c, Initial().g, 0, 0, false);
    PlaceFramed(c, Initial().g, 0, 0);
    assert (p.breaks + [p.current])[|p.breaks|] == p.current;
    StackPlaces(c, Initial(), 0);
  }

  lemma TraceRuns(c: Code, w: seq<Event>, to: At, n: nat) returns (o: Outcome)
    requires Scoped(c, false, false) && Path(Place(c, Initial().g, 0, 0).g, At(0, 0), w, to, n)
    ensures Runs(c, w, o) && o in {Normal, Stopped, Cut} && Place(c, Initial().g, 0, 0).current < |Place(c, Initial().g, 0, 0).g|
    ensures o == Normal ==> to == EndOf(Place(c, Initial().g, 0, 0))
    ensures Halts(Place(c, Initial().g, 0, 0).g, o, to, Place(c, Initial().g, 0, 0).current)
  {
    var p := Place(c, Initial().g, 0, 0);
    WholeFinal(c);
    assert Initial().g[0].insts == [];
    var s := Follow(c, p.g, Initial().g, 0, 0, 0, false, false, w, to, n);
    o := s.o;
    StaysInside(c, w[..s.i], s.o, false, false);
    if s.o == Normal {
      StepNowhere(p.g, EndOf(p), w[s.i..], to, n - s.k);
    }
    assert w[..s.i] == w;
  }

  lemma RunTraces(c: Code, w: seq<Event>, o: Outcome) returns (to: At, n: nat)
    requires Scoped(c, false, false) && Runs(c, w, o)
    ensures Path(Place(c, Initial().g, 0, 0).g, At(0, 0), w, to, n) && Place(c, Initial().g, 0, 0).current < |Place(c, Initial().g, 0, 0).g|
    ensures BuilderReaches.Ends(Place(c, Initial().g, 0, 0).g, to, o, EndOf(Place(c, Initial().g, 0, 0)), 0, 0)
  {
    WholeFinal(c);
    assert Initial().g[0].insts == [];
    to, n := Reach(c, Place(c, Initial().g, 0, 0).g, Initial().g, 0, 0, 0, w, o);
  }

  /** The untrimmed graph of a whole program shows exactly its executions. */
  lemma WholeTraces(c: Code, w: seq<Event>)
    requires Scoped(c, false, false)
    ensures Trace(Place(c, Initial().g, 0, 0).g, w) <==> exists o :: Runs(c, w, o)
  {
    var g := Place(c, Initial().g, 0, 0).g;
    if Trace(g, w) {
      var to: At, n: nat :| Path(g, At(0, 0), w, to, n);
      var o := TraceRuns(c, w, to, n);
      assert exists o' :: Runs(c, w, o');
    }
    if exists o :: Runs(c, w, o) {
      var o :| Runs(c, w, o);
      var to, n := RunTraces(c, w, o);
      assert Trace(g, w);
    }
  }

  /** A build accepts exactly the well-nested streams. */
  lemma BuildAccepts(ts: seq<Tok>)
    ensures BuildOf(ts).Ok? <==> exists c :: Scoped(c, false, false) && Flatten(c) == ts
  {
    if BuildOf(ts).Ok? {
      var frames, tail := AcceptedReads(ts);
      assert frames == [] && Scoped(tail, false, false) && Flatten(tail) == ts;
    }
    if c :| Scoped(c, false, false) && Flatten(c) == ts {
      WholeFinal(c);
    }
  }

  /** The graph built for a structured program shows exactly its executions, and no others. */
  lemma BuildPreservesRuns(c: Code, w: seq<Event>)
    requires Scoped(c, false, false)
    ensures BuildOf(Flatten(c)).Ok? && (Trace(BuildOf(Flatten(c)).value, w) <==> exists o :: Runs(c, w, o))
  {
    var p := Place(c, Initial().g, 0, 0);
    WholeFinal(c);
    WholeTraces(c, w);
    TrimKeeps(p.g);
    assert forall to, n :: Path(p.g, At(0, 0), w, to, n) <==> Path(Trimmed(p.g), At(0, 0), w, to, n);
  }

  /** Some path from the entry shows `w` and ends where the builder stood when the stream ended. */
  ghost predicate Completes(g: Graph, w: seq<Event>, end: At) { exists n: nat :: Path(g, At(0, 0), w, end, n) }

  /** Some path from the entry shows `w` and comes to a dead end elsewhere. */
  ghost predicate StopsShort(g: Graph, w: seq<Event>, end: At) {
    exists to: At, n: nat :: Path(g, At(0, 0), w, to, n) && DeadEnd(g, to) && to.block != end.block
  }

  /** Where the builder stands when the stream of a structured program ends. */
  function EndPoint(c: Code): At
    requires Place(c, Initial().g, 0, 0).current < |Place(c, Initial().g, 0, 0).g|
  {
    EndOf(Place(c, Initial().g, 0, 0))
  }

  /** A path that shows `w` tells how the execution that shows it ended. */
  lemma OutcomeOf(c: Code, w: seq<Event>, to: At, n: nat)
    requires Scoped(c, false, false) && Path(Place(c, Initial().g, 0, 0).g, At(0, 0), w, to, n)
    ensures Place(c, Initial().g, 0, 0).current < |Place(c, Initial().g, 0, 0).g|
    ensures to == EndPoint(c) ==> Runs(c, w, Normal)
    ensures DeadEnd(Place(c, Initial().g, 0, 0).g, to) && to.block != EndPoint(c).block ==> Runs(c, w, Stopped)
  {
    hide Runs, Path, Place;
    WholeFinal(c);
    var o := TraceRuns(c, w, to, n);
  }

  /** The untrimmed graph tells how executions end: those that complete lead to the end point, and those that stop to a
      dead end elsewhere. */
  lemma WholeOutcomes(c: Code, w: seq<Event>)
    requires Scoped(c, false, false)
    ensures var g := Place(c, Initial().g, 0, 0).g;
            && Place(c, Initial().g, 0, 0).current < |g|
            && (Runs(c, w, Normal) <==> Completes(g, w, EndPoint(c))) && (Runs(c, w, Stopped) <==> StopsShort(g, w, EndPoint(c)))
  {
    hide Runs, Path, Place, DeadEnd;
    WholeFinal(c);
    var g := Place(c, Initial().g, 0, 0).g;
    if Runs(c, w, Normal) {
      var to, n := RunTraces(c, w, Normal);
    }
    if Runs(c, w, Stopped) {
      var to, n := RunTraces(c, w, Stopped);
    }
    if Completes(g, w, EndPoint(c)) {
      var n: nat :| Path(g, At(0, 0), w, EndPoint(c), n);
      OutcomeOf(c, w, EndPoint(c), n);
    }
    if StopsShort(g, w, EndPoint(c)) {
      var to: At, n: nat :| Path(g, At(0, 0), w, to, n) && DeadEnd(g, to) && to.block != EndPoint(c).block;
      OutcomeOf(c, w, to, n);
    }
  }

  /** So does the graph that is returned: each outcome of an execution is the outcome of a path, and the other way round. */
  lemma BuildPreservesOutcomes(c: Code, w: seq<Event>)
    requires Scoped(c, false, false)
    ensures BuildOf(Flatten(c)).Ok? && Place(c, Initial().g, 0, 0).current < |Place(c, Initial().g, 0, 0).g|
    ensures Runs(c, w, Normal) <==> Completes(BuildOf(Flatten(c)).value, w, EndPoint(c))
    ensures Runs(c, w, Stopped) <==> StopsShort(BuildOf(Flatten(c)).value, w, EndPoint(c))
  {
    hide Runs, Path, Place, DeadEnd;
    var p := Place(c, Initial().g, 0, 0);
    WholeFinal(c);
    WholeOutcomes(c, w);
    TrimOutcomes(p.g, w, EndPoint(c));
  }

  lemma TrimOutcomes(g: Graph, w: seq<Event>, end: At)
    requires g != []
    ensures Completes(g, w, end) <==> Completes(Trimmed(g), w, end)
    ensures StopsShort(g, w, end) <==> StopsShort(Trimmed(g), w, end)
  {
    hide Path, Trimmed, LastTrims;
    var h := Trimmed(g);
    TrimKeeps(g);
    forall to: At, n: nat | Path(g, At(0, 0), w, to, n) ensures DeadEnd(g, to) <==> DeadEnd(h, to) {
      assert to.block < |h| || to.block >= |g|;
    }
    assert forall to, n :: Path(g, At(0, 0), w, to, n) <==> Path(h, At(0, 0), w, to, n);
  }

  /** An execution of a whole program that consists of one statement. */
  lemma OneStatement(c: Code, w: seq<Event>)
    requires !c.Done? && c.next.Done? && Scoped(c, false, false) && Head(c, w, Normal)
    ensures BuildOf(Flatten(c)).Ok? && Place(c, Initial().g, 0, 0).current < |Place(c, Initial().g, 0, 0).g|
    ensures Completes(BuildOf(Flatten(c)).value, w, EndPoint(c))
  {
    assert w[..|w|] == w && Runs(c.next, w[|w|..], Normal);
    assert Runs(c, w, Normal);
    hide Runs, Place, Completes, Head;
    BuildPreservesOutcomes(c, w);
  }

  /** What comes before the first case counts as an arm, even when nothing does: a switch can then run no case. */
  lemma NoCaseRuns(c: Code)
    requires c.Switch? && c.body.Done? && c.next.Done? && Scoped(c, false, false)
    ensures BuildOf(Flatten(c)).Ok? && Place(c, Initial().g, 0, 0).current < |Place(c, Initial().g, 0, 0).g|
    ensures Completes(BuildOf(Flatten(c)).value, [Ex(c.open), Take(Case)], EndPoint(c))
  {
    hide Place, Completes;
    var w := [Ex(c.open), Take(Case)];
    assert w[1..] == [Take(Case)] && w[1..][1..] == [];
    assert RunsCase(c, w[1..], Normal);
    OneStatement(c, w);
  }

  /** A second alternate is accepted, and an execution that finds the condition false runs either. */
  lemma AnyAlternateRuns(c: Code, v: seq<Event>)
    requires c.If? && c.next.Done? && Scoped(c, false, false) && c.arms.Arm? && c.arms.rest.Arm?
    requires Runs(c.arms.body, v, Normal) || Runs(c.arms.rest.body, v, Normal)
    ensures BuildOf(Flatten(c)).Ok? && Place(c, Initial().g, 0, 0).current < |Place(c, Initial().g, 0, 0).g|
    ensures Runs(c.arms.body, v, Normal) ==>
              Completes(BuildOf(Flatten(c)).value, [Ex(c.open), Take(WhenFalse), Ex(c.arms.lead)] + v, EndPoint(c))
    ensures Runs(c.arms.rest.body, v, Normal) ==>
              Completes(BuildOf(Flatten(c)).value, [Ex(c.open), Take(WhenFalse), Ex(c.arms.rest.lead)] + v, EndPoint(c))
  {
    hide Runs, Place, Completes;
    if Runs(c.arms.body, v, Normal) {
      ArmRuns(c, c.arms, v);
    }
    if Runs(c.arms.rest.body, v, Normal) {
      ArmRuns(c, c.arms.rest, v);
    }
  }

  lemma ArmRuns(c: Code, a: Arms, v: seq<Event>)
    requires c.If? && c.next.Done? && Scoped(c, false, false) && c.arms.Arm? && (a == c.arms || a == c.arms.rest)
    requires a.Arm? && Runs(a.body, v, Normal)
    ensures BuildOf(Flatten(c)).Ok? && Place(c, Initial().g, 0, 0).current < |Place(c, Initial().g, 0, 0).g|
    ensures Completes(BuildOf(Flatten(c)).value, [Ex(c.open), Take(WhenFalse), Ex(a.lead)] + v, EndPoint(c))
  {
    hide Runs, Place, Completes;
    var w := [Ex(c.open), Take(WhenFalse), Ex(a.lead)] + v;
    var u := w[1..];
    assert u == [Take(WhenFalse), Ex(a.lead)] + v && u[2..] == v;
    assert RunsArm(a, WhenFalse, u, Normal);
    assert RunsArm(c.arms, WhenFalse, u, Normal);
    OneStatement(c, w);
  }
}
