/** What each effect does to the executions of the code that follows, effect by effect. */
module EffectRuns {
  import opened StructuredCode

  lemma {:induction false} CutAtOnce(c: Code)
    ensures Runs(c, [], Cut)
    decreases c
  {
  }

  /** Nothing follows what returns, terminates or jumps. */
  lemma NothingFollows(t: Tok, next: Code, w: seq<Event>, o: Outcome)
    requires t.effect in {Return, Terminate, Jump, IndirectJump}
    ensures Runs(Simple(t, next), w, o) <==> (w == [] && o == Cut) || (w == [Ex(t)] && o in {Stopped, Cut})
  {
  }

  /** What has no effect on control, calls, or may throw is followed by the rest of the code; so is a label. */
  lemma RestFollows(t: Tok, next: Code, w: seq<Event>, o: Outcome)
    requires t.effect in {Fallthrough, Declaration, Call, ConditionalCall, IndirectCall, MayThrow, Label}
    ensures Runs(Simple(t, next), w, o) <==> (w == [] && o == Cut) || (w != [] && w[0] == Ex(t) && Runs(next, w[1..], o))
  {
    hide Runs;
    UnfoldSimple(t, next, w, o);
    if w != [] {
      assert w == [w[0]] + w[1..];
      assert w[..1] == [w[0]];
    }
    CutAtOnce(next);
  }

  lemma UnfoldSimple(t: Tok, next: Code, w: seq<Event>, o: Outcome)
    ensures Runs(Simple(t, next), w, o) <==>
              || (o != Normal && SimpleRuns(t, w, o))
              || exists i {:trigger w[..i]} :: 0 <= i <= |w| && SimpleRuns(t, w[..i], Normal) && Runs(next, w[i..], o)
  {
  }

  /** A break or a continue leaves. */
  lemma LeavesRegion(t: Tok, next: Code, w: seq<Event>, o: Outcome)
    requires t.effect in {Break, Continue}
    ensures Runs(Simple(t, next), w, o) <==>
              (w == [] && o == Cut) || (w == [Ex(t)] && o in {Cut, if t.effect == Break then Broke else Continued})
  {
  }

  /** A conditional return, break or continue leaves when its condition holds; otherwise the rest follows. A conditional
      jump is followed by the rest when its condition fails; its other edge is added after the build. */
  lemma MayLeave(t: Tok, next: Code, w: seq<Event>, o: Outcome)
    requires t.effect in {ConditionalReturn, ConditionalBreak, ConditionalContinue, ConditionalJump}
    ensures Runs(Simple(t, next), w, o) <==>
              || (w in {[], [Ex(t)]} && o == Cut)
              || (w == [Ex(t), Take(WhenTrue)] && t.effect == ConditionalReturn && o in {Stopped, Cut})
              || (w == [Ex(t), Take(WhenTrue)] && t.effect == ConditionalBreak && o in {Broke, Cut})
              || (w == [Ex(t), Take(WhenTrue)] && t.effect == ConditionalContinue && o in {Continued, Cut})
              || (|w| >= 2 && w[0] == Ex(t) && w[1] == Take(WhenFalse) && Runs(next, w[2..], o))
  {
    hide Runs;
    UnfoldSimple(t, next, w, o);
    if |w| >= 2 {
      assert w[..2] == [w[0], w[1]];
    }
  }
}

/** What every built graph looks like, told in the effects of its instructions: what a block may hold, and which edges
    leave it. */
module BuilderShape {
  import opened EdgeKinds
  import opened Sequences
  import opened StructuredCode
  import opened Wrappers
  import opened Builder
  import opened BuilderLayout
  import opened BuilderStack
  import opened BuilderNesting
  import opened BuilderRuns

  /** Another instruction may follow in the block. */
  predicate GoesOn(e: FlowEffect) {
    e in {FlowEffect.Fallthrough, Declaration, FlowEffect.Call, ConditionalCall, FlowEffect.IndirectCall, MayThrow}
  }

  /** The instruction begins its block. */
  predicate Leads(e: FlowEffect) { e in {Label, ConditionalAlternate, FlowEffect.SwitchCase} }

  predicate Closes(e: FlowEffect) { e in {ConditionalClose, SwitchClose, LoopClose} }

  /** Whatever stands before another instruction goes on, or begins the block. What closes a region is not stored. */
  predicate InstsFit(insts: seq<Tok>) {
    && (forall k :: 0 <= k < |insts| ==> !Closes(insts[k].effect) && (Leads(insts[k].effect) ==> k == 0))
    && (forall k :: 0 <= k < |insts| - 1 ==> GoesOn(insts[k].effect) || Leads(insts[k].effect))
  }

  predicate Kinds(out: seq<(EdgeKind, nat)>, kinds: seq<EdgeKind>) {
    |out| == |kinds| && forall i :: 0 <= i < |out| ==> out[i].0 == kinds[i]
  }

  /** Control leaves the block by at most one edge that shows no choice. */
  predicate Passes(out: seq<(EdgeKind, nat)>) {
    out == [] || Kinds(out, [EdgeKind.Fallthrough]) || Kinds(out, [Back])
  }

  /** The edges out of a block are those its last instruction calls for. */
  predicate EdgesFit(n: Node) {
    if n.insts == [] then Passes(n.out) || Kinds(n.out, [Unconditional])
    else
      match n.insts[|n.insts| - 1].effect
      case Return => n.out == []
      case Terminate => n.out == []
      case Jump => n.out == []
      case IndirectJump => n.out == []
      case Break => Kinds(n.out, [Unconditional])
      case Continue => Kinds(n.out, [Back])
      case ConditionalReturn => Kinds(n.out, [ConditionalTrue, ConditionalFalse])
      case ConditionalBreak => Kinds(n.out, [ConditionalTrue, ConditionalFalse])
      case ConditionalContinue => Kinds(n.out, [ConditionalTrue, ConditionalFalse])
      case ConditionalJump => Kinds(n.out, [ConditionalFalse])
      case ConditionalOpen =>
        |n.out| >= 2 && n.out[0].0 == ConditionalTrue && forall i :: 0 < i < |n.out| ==> n.out[i].0 == ConditionalFalse
      case SwitchOpen => |n.out| >= 1 && forall i :: 0 <= i < |n.out| ==> n.out[i].0 == EdgeKind.SwitchCase
      case LoopOpen => Kinds(n.out, [EdgeKind.Fallthrough])
      case _ => Passes(n.out)
  }

  predicate NodeFits(n: Node) { InstsFit(n.insts) && EdgesFit(n) }

  /** More instructions may be stored. */
  predicate Open(insts: seq<Tok>) {
    forall k :: 0 <= k < |insts| ==> GoesOn(insts[k].effect) || (k == 0 && Leads(insts[k].effect))
  }

  /** Waits for the edge that leaves the region around. */
  predicate Breaking(insts: seq<Tok>) {
    InstsFit(insts) && (insts == [] || insts[|insts| - 1].effect == Break)
  }

  /** All the blocks made by placing some code fit, but for those that wait. */
  ghost predicate Fits(n: nat, current: nat, p: Placed) {
    && p.current < |p.g| && Open(p.g[p.current].insts)
    && (forall b {:trigger b in p.breaks} :: b in p.breaks ==> b < |p.g| && Breaking(p.g[b].insts))
    && forall b: nat {:trigger p.g[b]} :: b < |p.g| && Own(n, current, b) && b != p.current && b !in p.breaks ==> NodeFits(p.g[b])
  }

  ghost predicate FitsArms(n: nat, current: nat, p: PlacedArms) {
    && (forall b {:trigger b in Joined(p)} :: b in Joined(p) ==> b < |p.g| && Open(p.g[b].insts))
    && (forall b {:trigger b in p.breaks} :: b in p.breaks ==> b < |p.g| && Breaking(p.g[b].insts))
    && forall b: nat {:trigger p.g[b]} :: b < |p.g| && Own(n, current, b) && b !in Joined(p) && b !in p.breaks ==> NodeFits(p.g[b])
  }

  lemma OpenFits(insts: seq<Tok>, out: seq<(EdgeKind, nat)>)
    requires Open(insts) && Passes(out)
    ensures NodeFits(Node(insts, out))
  {
  }

  lemma BreakingFits(insts: seq<Tok>, to: nat)
    requires Breaking(insts)
    ensures NodeFits(Node(insts, [(Unconditional, to)]))
  {
  }

  lemma OpenThen(insts: seq<Tok>, t: Tok)
    requires Open(insts) && !Leads(t.effect) && !Closes(t.effect)
    ensures InstsFit(insts + [t]) && (GoesOn(t.effect) ==> Open(insts + [t]))
  {
  }

  lemma SimpleFits(t: Tok, g: Graph, current: nat, header: nat, inLoop: bool, breakable: bool)
    requires current < |g| && g[current].out == [] && Open(g[current].insts) && SimpleScoped(t, inLoop, breakable)
    ensures Fits(|g|, current, PlaceSimple(t, g, current, header))
  {
    hide InstsFit, Open, EdgesFit;
    if t.effect == Label {
      LabelFits(t, g, current, header);
    } else if GoesOn(t.effect) {
      OpenThen(g[current].insts, t);
    } else if t.effect in {ConditionalReturn, ConditionalBreak, ConditionalContinue} {
      ForkFits(t, g, current, header);
    } else {
      LeaveFits(t, g, current, header);
    }
  }

  lemma LabelFits(t: Tok, g: Graph, current: nat, header: nat)
    requires current < |g| && g[current].out == [] && Open(g[current].insts) && t.effect == Label
    ensures Fits(|g|, current, PlaceSimple(t, g, current, header))
  {
    hide NodeFits;
    var h := PlaceSimple(t, g, current, header).g;
    OpenFits(g[current].insts, h[current].out);
  }

  lemma LeaveFits(t: Tok, g: Graph, current: nat, header: nat)
    requires current < |g| && g[current].out == [] && Open(g[current].insts) && !IsMarker(t) && !GoesOn(t.effect)
    requires t.effect !in {Label, ConditionalReturn, ConditionalBreak, ConditionalContinue}
    ensures Fits(|g|, current, PlaceSimple(t, g, current, header))
  {
    hide InstsFit, Open;
    OpenThen(g[current].insts, t);
    OpenNothing();
    var h := PlaceSimple(t, g, current, header).g;
    assert h[current].insts == g[current].insts + [t] && h[|g|] == Node([], []);
  }

  lemma ForkFits(t: Tok, g: Graph, current: nat, header: nat)
    requires current < |g| && g[current].out == [] && Open(g[current].insts)
    requires t.effect in {ConditionalReturn, ConditionalBreak, ConditionalContinue}
    ensures Fits(|g|, current, PlaceSimple(t, g, current, header))
  {
    hide InstsFit, Open;
    OpenThen(g[current].insts, t);
    OpenNothing();
    OpenFits([], []);
    var p := PlaceSimple(t, g, current, header);
    assert p.g[current].insts == g[current].insts + [t] && Kinds(p.g[current].out, [ConditionalTrue, ConditionalFalse]);
    assert p.g[|g|] == Node([], []) && p.g[p.current] == Node([], []);
  }

  /** Code placed after other code leaves the blocks of the other as they were, except the one it starts in. */
  lemma FitsThen(g: Graph, current: nat, first: Placed, rest: Placed)
    requires Framed(g, current, first) && Framed(first.g, first.current, rest)
    requires Fits(|g|, current, first) && Fits(|first.g|, first.current, rest)
    ensures Fits(|g|, current, Placed(rest.g, rest.current, first.breaks + rest.breaks))
  {
    var mine := first.breaks + [first.current];
    assert mine[|first.breaks|] == first.current;
    forall b | b in first.breaks ensures b < |first.g| && b != first.current {
      var i :| 0 <= i < |first.breaks| && first.breaks[i] == b;
      assert mine[i] == b;
    }
    assert forall b :: b in first.breaks ==> rest.g[b] == first.g[b];
    forall b: nat | b < |rest.g| && Own(|g|, current, b) && b != rest.current && b !in first.breaks + rest.breaks
      ensures NodeFits(rest.g[b])
    {
      if b < |first.g| && b != first.current {
        assert rest.g[b] == first.g[b] && b !in first.breaks;
      }
    }
  }

  lemma {:induction false} PlaceFits(c: Code, g: Graph, current: nat, header: nat, inLoop: bool, breakable: bool)
    requires current < |g| && g[current].out == [] && Open(g[current].insts) && Scoped(c, inLoop, breakable)
    ensures Fits(|g|, current, Place(c, g, current, header))
    decreases c, 1
  {
    hide NodeFits, Open, Breaking, Framed, Waiting;
    if !c.Done? {
      var first := PlaceHead(c, g, current, header);
      PlaceHeadFits(c, g, current, header, inLoop, breakable);
      PlaceHeadFramed(c, g, current, header);
      EndWaits(g, current, first);
      PlaceFits(c.next, first.g, first.current, header, inLoop, breakable);
      PlaceFramed(c.next, first.g, first.current, header);
      FitsThen(g, current, first, Place(c.next, first.g, first.current, header));
    }
  }

  lemma EndWaits(g: Graph, current: nat, p: Placed)
    requires Framed(g, current, p)
    ensures p.current < |p.g| && p.g[p.current].out == [] && Own(|g|, current, p.current) && p.current !in p.breaks
  {
    var all := p.breaks + [p.current];
    assert all[|p.breaks|] == p.current;
    assert forall i :: 0 <= i < |p.breaks| ==> all[i] == p.breaks[i];
  }

  lemma {:induction false} PlaceHeadFits(c: Code, g: Graph, current: nat, header: nat, inLoop: bool, breakable: bool)
    requires !c.Done? && current < |g| && g[current].out == [] && Open(g[current].insts) && Scoped(c, inLoop, breakable)
    ensures Fits(|g|, current, PlaceHead(c, g, current, header))
    decreases c, 0
  {
    hide NodeFits, Open, Breaking;
    match c
    case Simple(t, _) => SimpleFits(t, g, current, header, inLoop, breakable);
    case If(o, b, a, _, _) =>
      RegionPlaced(c, g, current, header);
      RegionFits(c, g, current, header, inLoop, breakable);
      IfFits(g, current, o, BodyOf(c, g, current, header), ArmsOf(c, g, current, header),
             Starts(a, BodyOf(c, g, current, header).g, current, ConditionalFalse, header), a.Arm?);
    case Switch(o, b, a, _, _) =>
      RegionPlaced(c, g, current, header);
      RegionFits(c, g, current, header, inLoop, true);
      SwitchFits(g, current, o, BodyOf(c, g, current, header), ArmsOf(c, g, current, header),
                 Starts(a, BodyOf(c, g, current, header).g, current, EdgeKind.SwitchCase, header));
    case Loop(o, b, _, _) =>
      var start := Opened(g, current, o, EdgeKind.Fallthrough);
      OpenNothing();
      PlaceFramed(b, start, |g|, |g|);
      PlaceFits(b, start, |g|, |g|, true, true);
      LoopFits(g, current, o, Place(b, start, |g|, |g|));
  }

  lemma OpenNothing()
    ensures Open([])
  {
  }

  lemma LoopFits(g: Graph, current: nat, t: Tok, body: Placed)
    requires current < |g| && g[current].out == [] && Open(g[current].insts) && t.effect == LoopOpen
    requires Framed(Opened(g, current, t, EdgeKind.Fallthrough), |g|, body) && Fits(|g| + 1, |g|, body)
    ensures Fits(|g|, current, Placed(LoopGraph(body, |g|), |body.g|, []))
  {
    hide NodeFits, Open, Breaking, AddEdges;
    var h := LoopGraph(body, |g|);
    LoopFacts(g, current, t, body);
    LoopWaiting(g, current, t, body);
    OpenNothing();
    forall b: nat | b < |h| && Own(|g|, current, b) && b != |body.g| ensures NodeFits(h[b]) {
      if b == current {
        OpensFit(g[current].insts, t, h[b].out);
      } else if b == body.current {
        OpenFits(body.g[b].insts, h[b].out);
      } else if b in body.breaks {
        BreakingFits(body.g[b].insts, |body.g|);
      }
    }
  }

  /** The block a region opens in. */
  lemma OpensFit(insts: seq<Tok>, t: Tok, out: seq<(EdgeKind, nat)>)
    requires Open(insts) && t.effect in {ConditionalOpen, SwitchOpen, LoopOpen} && EdgesFit(Node([t], out))
    ensures NodeFits(Node(insts + [t], out))
  {
    OpenThen(insts, t);
  }

  /** The blocks of one arm and those of the arms after it. */
  lemma JoinFits(n: nat, pre: nat, body: Placed, rest: PlacedArms)
    requires pre < n < |body.g| <= |rest.g| && Fits(n + 1, n, body) && body.current !in body.breaks
    requires FitsArms(|body.g|, body.current, rest)
    requires forall b {:trigger rest.g[b]} {:trigger body.g[b]} :: 0 <= b < |body.g| && b != pre ==> rest.g[b] == body.g[b]
    requires forall b :: b in body.breaks ==> b >= n
    ensures FitsArms(n + 1, n, PlacedArms(rest.g, rest.current, rest.exits, body.breaks + rest.breaks))
  {
    hide NodeFits, Open, Breaking;
    var all := PlacedArms(rest.g, rest.current, rest.exits, body.breaks + rest.breaks);
    assert Joined(all) == Joined(rest);
    forall b | b in all.breaks ensures b < |all.g| && Breaking(all.g[b].insts) {
      if b in body.breaks {
        assert rest.g[b] == body.g[b];
      }
    }
    forall b: nat | b < |all.g| && Own(n + 1, n, b) && b !in Joined(all) && b !in all.breaks ensures NodeFits(all.g[b]) {
      if b < |body.g| && b != body.current {
        assert rest.g[b] == body.g[b] && b !in body.breaks;
      }
    }
  }

  lemma BreaksOwn(g: Graph, current: nat, p: Placed)
    requires Framed(g, current, p)
    ensures forall b :: b in p.breaks ==> Own(|g|, current, b)
  {
    var all := p.breaks + [p.current];
    assert forall i :: 0 <= i < |p.breaks| ==> all[i] == p.breaks[i];
  }

  lemma {:induction false} RegionFits(c: Code, g: Graph, current: nat, header: nat, inLoop: bool, breakable: bool)
    requires (c.If? || c.Switch?) && current < |g| && g[current].out == []
    requires Scoped(c.body, inLoop, breakable)
    requires ScopedArms(c.arms, if c.If? then ConditionalAlternate else FlowEffect.SwitchCase, inLoop, breakable)
    ensures var body, arms := BodyOf(c, g, current, header), ArmsOf(c, g, current, header);
            FitsArms(|g| + 1, |g|, PlacedArms(arms.g, arms.current, arms.exits, body.breaks + arms.breaks))
    decreases c, -1
  {
    hide NodeFits, Open, Breaking, Waiting;
    var start, body := Opened(g, current, c.open, FirstKind(c)), BodyOf(c, g, current, header);
    OpenNothing();
    RegionPlaced(c, g, current, header);
    PlaceFits(c.body, start, |g|, header, inLoop, breakable);
    EndWaits(start, |g|, body);
    BreaksOwn(start, |g|, body);
    PlaceArmsFits(c.arms, body.g, current, ArmKind(c), body.current, header,
                  if c.If? then ConditionalAlternate else FlowEffect.SwitchCase, inLoop, breakable);
    JoinFits(|g|, current, body, ArmsOf(c, g, current, header));
  }

  lemma {:induction false} PlaceArmsFits(a: Arms, g: Graph, pre: nat, kind: EdgeKind, current: nat, header: nat,
                                         lead: FlowEffect, inLoop: bool, breakable: bool)
    requires pre < |g| && current < |g| && pre != current && g[current].out == [] && Open(g[current].insts)
    requires Leads(lead) && ScopedArms(a, lead, inLoop, breakable)
    ensures FitsArms(|g|, current, PlaceArms(a, g, pre, kind, current, header))
    decreases a, 1
  {
    hide NodeFits, Breaking, Waiting, AddEdges, FitsArms, Fits;
    match a
    case NoArm =>
      NoArmFits(g, current);
    case Arm(l, b, r) =>
      var start := AddEdge(NewBlock(g, [l]), pre, kind, |g|);
      assert Open([l]);
      var body := ArmPlaced(b, start, |g|, header, inLoop, breakable);
      PlaceArmsFits(r, body.g, pre, kind, body.current, header, lead, inLoop, breakable);
      PlaceArmsFramed(r, body.g, pre, kind, body.current, header);
      var rest := PlaceArms(r, body.g, pre, kind, body.current, header);
      JoinFits(|g|, pre, body, rest);
      ArmFits(g, current, PlacedArms(rest.g, rest.current, rest.exits, body.breaks + rest.breaks));
  }

  lemma NoArmFits(g: Graph, current: nat)
    requires current < |g| && Open(g[current].insts)
    ensures FitsArms(|g|, current, PlacedArms(g, current, [], []))
  {
    assert Joined(PlacedArms(g, current, [], [])) == [current];
  }

  lemma {:induction false} ArmPlaced(c: Code, start: Graph, current: nat, header: nat, inLoop: bool, breakable: bool)
    returns (body: Placed)
    requires current < |start| && start[current].out == [] && Open(start[current].insts) && Scoped(c, inLoop, breakable)
    ensures body == Place(c, start, current, header) && Framed(start, current, body) && Fits(|start|, current, body)
    ensures body.current < |body.g| && body.g[body.current].out == [] && Own(|start|, current, body.current)
    ensures body.current !in body.breaks && Open(body.g[body.current].insts)
    ensures forall b :: b in body.breaks ==> Own(|start|, current, b)
    decreases c, 2
  {
    hide NodeFits, Open, Breaking, Waiting, Framed;
    body := Place(c, start, current, header);
    PlaceFramed(c, start, current, header);
    PlaceFits(c, start, current, header, inLoop, breakable);
    EndWaits(start, current, body);
    BreaksOwn(start, current, body);
  }

  /** The arm before ends where it ended. */
  lemma ArmFits(g: Graph, current: nat, p: PlacedArms)
    requires current < |g| < |p.g| && p.g[current] == g[current] && Open(g[current].insts) && FitsArms(|g| + 1, |g|, p)
    ensures FitsArms(|g|, current, PlacedArms(p.g, p.current, [current] + p.exits, p.breaks))
  {
    var all := PlacedArms(p.g, p.current, [current] + p.exits, p.breaks);
    assert Joined(all) == [current] + Joined(p);
  }

  lemma IfFits(g: Graph, current: nat, t: Tok, body: Placed, arms: PlacedArms, starts: seq<nat>, alternate: bool)
    requires current < |g| && g[current].out == [] && Open(g[current].insts) && t.effect == ConditionalOpen
    requires Framed(Opened(g, current, t, ConditionalTrue), |g|, body)
    requires FramedArms(body.g, current, body.current, arms, ConditionalFalse, starts) && (alternate ==> starts != [])
    requires FitsArms(|g| + 1, |g|, PlacedArms(arms.g, arms.current, arms.exits, body.breaks + arms.breaks))
    ensures Fits(|g|, current, Placed(IfGraph(arms, current, alternate), |arms.g|, body.breaks + arms.breaks))
  {
    hide NodeFits, Open, Breaking, AddEdges, Waiting, Framed, FramedArms;
    var all := PlacedArms(arms.g, arms.current, arms.exits, body.breaks + arms.breaks);
    var h := IfGraph(arms, current, alternate);
    RegionFramed(g, current, t, ConditionalTrue, body, arms, ConditionalFalse, starts);
    SplitEnds(|g|, arms, body.breaks);
    JoinedInside(arms, |g|);
    MergedFacts(arms.g, Joined(arms));
    OpenNothing();
    assert Joined(all) == Joined(arms);
    forall b: nat | b < |h| && Own(|g|, current, b) && b != |arms.g| && b !in all.breaks ensures NodeFits(h[b]) {
      if b == current {
        OpensFit(g[current].insts, t, h[b].out);
      } else if b in Joined(arms) {
        OpenFits(arms.g[b].insts, h[b].out);
      }
    }
  }

  lemma JoinedInside(arms: PlacedArms, n: nat)
    requires Waiting(arms.g, n + 1, n, Joined(arms))
    ensures Unique(Joined(arms)) && forall i :: 0 <= i < |Joined(arms)| ==> Joined(arms)[i] < |arms.g| && arms.g[Joined(arms)[i]].out == []
  {
  }

  lemma SwitchFits(g: Graph, current: nat, t: Tok, body: Placed, arms: PlacedArms, starts: seq<nat>)
    requires current < |g| && g[current].out == [] && Open(g[current].insts) && t.effect == SwitchOpen
    requires Framed(Opened(g, current, t, EdgeKind.SwitchCase), |g|, body)
    requires FramedArms(body.g, current, body.current, arms, EdgeKind.SwitchCase, starts)
    requires FitsArms(|g| + 1, |g|, PlacedArms(arms.g, arms.current, arms.exits, body.breaks + arms.breaks))
    ensures Fits(|g|, current, Placed(SwitchGraph(arms, body.breaks + arms.breaks), |arms.g|, []))
  {
    hide NodeFits, Open, Breaking, AddEdges, Waiting, Framed, FramedArms, SwitchGraph;
    var all := PlacedArms(arms.g, arms.current, arms.exits, body.breaks + arms.breaks);
    var h := SwitchGraph(arms, all.breaks);
    RegionFramed(g, current, t, EdgeKind.SwitchCase, body, arms, EdgeKind.SwitchCase, starts);
    SplitEnds(|g|, arms, body.breaks);
    SwitchFacts(g, current, t, body, arms, starts);
    OpenNothing();
    assert Joined(all) == Joined(arms);
    forall b: nat | b < |h| && Own(|g|, current, b) && b != |arms.g| ensures NodeFits(h[b]) {
      if b == current {
        OpensFit(g[current].insts, t, h[b].out);
      } else if b in Joined(arms) {
        OpenFits(arms.g[b].insts, h[b].out);
      } else if b in all.breaks {
        BreakingFits(arms.g[b].insts, |arms.g|);
      }
    }
  }

  lemma WholeFits(c: Code)
    requires Scoped(c, false, false)
    ensures forall b :: 0 <= b < |Place(c, Initial().g, 0, 0).g| ==> NodeFits(Place(c, Initial().g, 0, 0).g[b])
  {
    hide NodeFits, Open, Breaking, Place;
    var p := Place(c, Initial().g, 0, 0);
    WholeFinal(c);
    OpenNothing();
    PlaceFits(c, Initial().g, 0, 0, false, false);
    OpenFits(p.g[p.current].insts, []);
    forall b | 0 <= b < |p.g| ensures NodeFits(p.g[b]) {
      assert b != p.current ==> Own(1, 0, b);
    }
  }

  /** In every graph a build returns, each block holds what it may and is left by the edges its last instruction calls
      for. What returns, terminates or jumps ends its block, and no edge leaves it. */
  lemma BuiltFits(ts: seq<Tok>)
    requires BuildOf(ts).Ok?
    ensures forall b :: 0 <= b < |BuildOf(ts).value| ==> NodeFits(BuildOf(ts).value[b])
    ensures forall b, k {:trigger BuildOf(ts).value[b].insts[k]} ::
              0 <= b < |BuildOf(ts).value| && 0 <= k < |BuildOf(ts).value[b].insts|
              && BuildOf(ts).value[b].insts[k].effect in {Return, Terminate, FlowEffect.Jump, FlowEffect.IndirectJump} ==>
                k == |BuildOf(ts).value[b].insts| - 1 && BuildOf(ts).value[b].out == []
    ensures BuildOf(ts).value != [] && TailNeeded(BuildOf(ts).value)
  {
    hide Place, Scoped, Flatten, Trimmed, ProcessAll;
    BuildAccepts(ts);
    var c :| Scoped(c, false, false) && Flatten(c) == ts;
    WholeFits(c);
    WholeFinal(c);
    TrimKeeps(Place(c, Initial().g, 0, 0).g);
  }

  /** The last block is the entry, holds an instruction, or is entered by an edge. */
  ghost predicate TailNeeded(g: Graph)
    requires g != []
  {
    var last := |g| - 1;
    last == 0 || g[last].insts != [] || exists b, e :: 0 <= b < |g| && 0 <= e < |g[b].out| && g[b].out[e].1 == last
  }

  /** What an instruction that fits no scope reports. */
  predicate Reports(e: FlowEffect, error: BuildError) {
    match e
    case ConditionalAlternate => error == UnmatchedElse
    case ConditionalClose => error == UnmatchedEndIf
    case SwitchCase => error == UnmatchedSwitchCase
    case SwitchClose => error == UnmatchedEndSwitch
    case LoopClose => error == UnmatchedEndLoop
    case Break => error == BreakOutsideScope
    case ConditionalBreak => error == BreakOutsideScope
    case Continue => error == ContinueOutsideLoop
    case ConditionalContinue => error == ContinueOutsideLoop
    case _ => false
  }

  /** How many more regions the stream opens than it closes. */
  function Depth(ts: seq<Tok>): int {
    if ts == [] then 0
    else
      var t := ts[|ts| - 1];
      Depth(ts[..|ts| - 1]) + (if t.effect in {ConditionalOpen, SwitchOpen, LoopOpen} then 1 else 0)
      - (if Closes(t.effect) then 1 else 0)
  }

  lemma {:induction false} RecordKeepsDepth(scopes: seq<Scope>, b: nat)
    requires Breakable(scopes)
    ensures |RecordBreak(scopes, b)| == |scopes|
  {
    if scopes[|scopes| - 1].IfScope? {
      RecordKeepsDepth(scopes[..|scopes| - 1], b);
    }
  }

  lemma ProcessDepth(st: State, t: Tok)
    ensures match Process(st, t)
            case Err(e) => Reports(t.effect, e)
            case Ok(next) =>
              |next.scopes| == |st.scopes| + (if t.effect in {ConditionalOpen, SwitchOpen, LoopOpen} then 1 else 0)
                               - (if Closes(t.effect) then 1 else 0)
  {
    hide RecordBreak, LoopHeader, InLoop, Breakable, AddEdges;
    if t.effect in {Break, ConditionalBreak} && Breakable(st.scopes) {
      RecordKeepsDepth(st.scopes, st.current);
      RecordKeepsDepth(st.scopes, |st.g|);
    }
  }

  lemma {:induction false} ProcessAllDepth(ts: seq<Tok>)
    ensures match ProcessAll(Initial(), ts)
            case Err(e) => exists k :: 0 <= k < |ts| && Reports(ts[k].effect, e) && ProcessAll(Initial(), ts[..k]).Ok?
            case Ok(st) => |st.scopes| == Depth(ts)
  {
    hide Process, Reports;
    if ts != [] {
      var n := |ts| - 1;
      ProcessAllDepth(ts[..n]);
      if ProcessAll(Initial(), ts[..n]).Ok? {
        ProcessDepth(ProcessAll(Initial(), ts[..n]).value, ts[n]);
      } else {
        var k :| 0 <= k < n && Reports(ts[..n][k].effect, ProcessAll(Initial(), ts[..n]).error) && ProcessAll(Initial(), ts[..n][..k]).Ok?;
        assert ts[..n][..k] == ts[..k];
      }
    }
  }

  /** A refused build says why: the first instruction that fits no scope around it, by its effect, or how many regions
      are still open at the end. */
  lemma BuildErrors(ts: seq<Tok>)
    requires BuildOf(ts).Err?
    ensures var e := BuildOf(ts).error;
            if e.UnclosedScopes? then e.remaining == Depth(ts) > 0 && ProcessAll(Initial(), ts).Ok?
            else exists k :: 0 <= k < |ts| && Reports(ts[k].effect, e) && ProcessAll(Initial(), ts[..k]).Ok?
  {
    hide ProcessAll, Depth, Trimmed, Reports;
    ProcessAllDepth(ts);
    if ProcessAll(Initial(), ts).Err? {
      var k :| 0 <= k < |ts| && Reports(ts[k].effect, ProcessAll(Initial(), ts).error) && ProcessAll(Initial(), ts[..k]).Ok?;
      ReportsAtOnce(ts[k].effect, ProcessAll(Initial(), ts).error);
    }
  }

  lemma ReportsAtOnce(effect: FlowEffect, e: BuildError)
    requires Reports(effect, e)
    ensures !e.UnclosedScopes?
  {
  }

  /** The instructions of the first `n` blocks, in order. */
  function Listing(g: Graph, n: nat): seq<Tok>
    requires n <= |g|
  {
    if n == 0 then [] else Listing(g, n - 1) + g[n - 1].insts
  }

  /** The stream without what closes its regions. */
  function Stored(ts: seq<Tok>): seq<Tok> {
    if ts == [] then []
    else Stored(ts[..|ts| - 1]) + if Closes(ts[|ts| - 1].effect) then [] else [ts[|ts| - 1]]
  }

  lemma {:induction false} ListingSame(g: Graph, h: Graph, n: nat)
    requires n <= |g| && n <= |h| && forall b :: 0 <= b < n ==> g[b].insts == h[b].insts
    ensures Listing(g, n) == Listing(h, n)
  {
    if n > 0 {
      ListingSame(g, h, n - 1);
    }
  }

  lemma {:induction false} EdgesKeepInsts(g: Graph, sources: seq<nat>, kind: EdgeKind, to: nat)
    ensures |AddEdges(g, sources, kind, to)| == |g|
    ensures forall b :: 0 <= b < |g| ==> AddEdges(g, sources, kind, to)[b].insts == g[b].insts
  {
    if sources != [] {
      EdgesKeepInsts(g, sources[..|sources| - 1], kind, to);
    }
  }

  /** The builder stands at the last block, and what it has stored is the listing of the graph. */
  ghost predicate Listed(st: State, stored: seq<Tok>) {
    st.current == |st.g| - 1 && |st.g| > 0 && Listing(st.g, |st.g|) == stored
  }

  /** One instruction or none goes to the end of the last block, or leads a new one; other new blocks are empty. */
  lemma {:induction false} StoresOne(g: Graph, h: Graph, stored: seq<Tok>, old': seq<Tok>, new': seq<Tok>)
    requires 0 < |g| <= |h| && Listing(g, |g|) == stored
    requires forall b :: 0 <= b < |g| - 1 ==> h[b].insts == g[b].insts
    requires h[|g| - 1].insts == g[|g| - 1].insts + old'
    requires forall b :: |g| <= b < |h| ==> h[b].insts == if b == |h| - 1 then new' else []
    requires |h| == |g| ==> new' == []
    ensures Listing(h, |h|) == stored + old' + new'
    decreases |h|
  {
    hide Listing;
    ListingStep(h, |h| - 1);
    if |h| == |g| {
      ListingStep(g, |g| - 1);
      ListingSame(g, h, |g| - 1);
    } else {
      var less := h[..|h| - 1];
      StoresOne(g, less, stored, old', []);
      ListingSame(h, less, |h| - 1);
    }
  }

  lemma ListingStep(g: Graph, n: nat)
    requires n < |g|
    ensures Listing(g, n + 1) == Listing(g, n) + g[n].insts
  {
  }

  /** Every instruction is stored behind all those before it; what closes a region is not stored. */
  lemma ProcessStores(st: State, t: Tok, stored: seq<Tok>)
    requires Listed(st, stored) && Process(st, t).Ok?
    ensures Listed(Process(st, t).value, stored + if Closes(t.effect) then [] else [t])
  {
    hide Listed, Process;
    if Closes(t.effect) {
      CloseStores(st, t, stored);
    } else if t.effect in {ConditionalAlternate, FlowEffect.SwitchCase, Label} {
      LeadStores(st, t, stored);
    } else if t.effect in {ConditionalBreak, ConditionalContinue, ConditionalReturn} {
      ForkStores(st, t, stored);
    } else {
      LastStores(st, t, stored);
    }
  }

  lemma LeadStores(st: State, t: Tok, stored: seq<Tok>)
    requires Listed(st, stored) && Process(st, t).Ok? && Leads(t.effect)
    ensures Listed(Process(st, t).value, stored + [t])
  {
    hide Listing;
    StoresOne(st.g, Process(st, t).value.g, stored, [], [t]);
  }

  lemma ForkStores(st: State, t: Tok, stored: seq<Tok>)
    requires Listed(st, stored) && Process(st, t).Ok?
    requires t.effect in {ConditionalBreak, ConditionalContinue, ConditionalReturn}
    ensures Listed(Process(st, t).value, stored + [t])
  {
    hide Listing, RecordBreak, LoopHeader, Breakable, InLoop;
    StoresOne(st.g, Process(st, t).value.g, stored, [t], []);
  }

  lemma LastStores(st: State, t: Tok, stored: seq<Tok>)
    requires Listed(st, stored) && Process(st, t).Ok? && !Closes(t.effect) && !Leads(t.effect)
    requires t.effect !in {ConditionalBreak, ConditionalContinue, ConditionalReturn}
    ensures Listed(Process(st, t).value, stored + [t])
  {
    hide Listing, RecordBreak, LoopHeader, Breakable, InLoop;
    StoresOne(st.g, Process(st, t).value.g, stored, [t], []);
  }

  lemma CloseStores(st: State, t: Tok, stored: seq<Tok>)
    requires Listed(st, stored) && Process(st, t).Ok? && t.effect in {ConditionalClose, SwitchClose, LoopClose}
    ensures Listed(Process(st, t).value, stored + [])
  {
    hide AddEdges, Listing;
    var top, last := Top(st), |st.g|;
    if t.effect == LoopClose {
      EdgesKeepInsts(NewBlock(AddEdge(st.g, st.current, Back, top.header), []), top.breaks, Unconditional, last);
    } else {
      var g := AddEdges(NewBlock(st.g, []), top.exits + [st.current], EdgeKind.Fallthrough, last);
      EdgesKeepInsts(NewBlock(st.g, []), top.exits + [st.current], EdgeKind.Fallthrough, last);
      if t.effect == SwitchClose {
        EdgesKeepInsts(g, top.breaks, Unconditional, last);
      }
    }
    StoresOne(st.g, Process(st, t).value.g, stored, [], []);
  }

  lemma {:induction false} AllStored(ts: seq<Tok>)
    requires ProcessAll(Initial(), ts).Ok?
    ensures Listed(ProcessAll(Initial(), ts).value, Stored(ts))
  {
    hide Process;
    if ts == [] {
      assert Listing(Initial().g, 1) == [];
    } else {
      AllStored(ts[..|ts| - 1]);
      ProcessStores(ProcessAll(Initial(), ts[..|ts| - 1]).value, ts[|ts| - 1], Stored(ts[..|ts| - 1]));
    }
  }

  lemma {:induction false} EmptyTail(g: Graph, n: nat)
    requires n <= |g| && forall b :: n <= b < |g| ==> g[b].insts == []
    ensures Listing(g, |g|) == Listing(g, n)
    decreases |g|
  {
    if n < |g| {
      var less := g[..|g| - 1];
      EmptyTail(less, n);
      ListingSame(g, less, |g| - 1);
      ListingSame(g, less, n);
    }
  }

  /** The blocks of the graph, one after the other, hold the stream in its order: every instruction once, except what
      closes a region. */
  lemma BuiltKeepsOrder(ts: seq<Tok>)
    requires BuildOf(ts).Ok?
    ensures Listing(BuildOf(ts).value, |BuildOf(ts).value|) == Stored(ts)
  {
    hide Listing, Trimmed, ProcessAll, Stored;
    var g, h := ProcessAll(Initial(), ts).value.g, BuildOf(ts).value;
    AllStored(ts);
    TrimKeeps(g);
    EmptyTail(g, |h|);
    ListingSame(g, h, |h|);
  }
}
