/** Paths through a built graph, and what is final in it. */
module BuilderPaths {
  import opened EdgeKinds
  import opened StructuredCode
  import opened Wrappers
  import opened Builder
  import opened BuilderLayout

  /** Just before instruction `idx` of a block, or at its end. */
  datatype At = At(block: nat, idx: nat)

  /** The choice an edge shows; the others are silent. */
  function ChoiceOf(kind: EdgeKind): Option<Choice> {
    match kind
    case ConditionalTrue => Some(WhenTrue)
    case ConditionalFalse => Some(WhenFalse)
    case SwitchCase => Some(Case)
    case _ => None
  }

  /** `n` steps from `from` to `to`: instructions one by one and, at the end of a block, any of its edges. */
  ghost predicate Path(f: Graph, from: At, w: seq<Event>, to: At, n: nat)
    decreases n, 0
  {
    if n == 0 then w == [] && to == from
    else
      && from.block < |f|
      && if from.idx < |f[from.block].insts| then
           w != [] && w[0] == Ex(f[from.block].insts[from.idx]) && Path(f, At(from.block, from.idx + 1), w[1..], to, n - 1)
         else exists e :: 0 <= e < |f[from.block].out| && Crosses(f, f[from.block].out[e], w, to, n - 1)
  }

  ghost predicate Crosses(f: Graph, edge: (EdgeKind, nat), w: seq<Event>, to: At, n: nat)
    decreases n, 1
  {
    match ChoiceOf(edge.0)
    case None => Path(f, At(edge.1, 0), w, to, n)
    case Some(c) => w != [] && w[0] == Take(c) && Path(f, At(edge.1, 0), w[1..], to, n)
  }

  lemma {:induction false} PathJoin(f: Graph, from: At, u: seq<Event>, mid: At, m: nat, v: seq<Event>, to: At, n: nat)
    requires Path(f, from, u, mid, m) && Path(f, mid, v, to, n)
    ensures Path(f, from, u + v, to, m + n)
    decreases m
  {
    if m == 0 {
      assert u + v == v;
    } else if from.idx < |f[from.block].insts| {
      PathJoin(f, At(from.block, from.idx + 1), u[1..], mid, m - 1, v, to, n);
      assert (u + v)[1..] == u[1..] + v;
    } else {
      var e :| 0 <= e < |f[from.block].out| && Crosses(f, f[from.block].out[e], u, mid, m - 1);
      var edge := f[from.block].out[e];
      if ChoiceOf(edge.0).None? {
        PathJoin(f, At(edge.1, 0), u, mid, m - 1, v, to, n);
      } else {
        PathJoin(f, At(edge.1, 0), u[1..], mid, m - 1, v, to, n);
        assert (u + v)[1..] == u[1..] + v;
      }
      assert Crosses(f, edge, u + v, to, m + n - 1);
    }
  }

  /** An execution may be cut where it stands. */
  lemma {:induction false} CutAnywhere(c: Code, w: seq<Event>, o: Outcome)
    requires Runs(c, w, o)
    ensures Runs(c, w, Cut)
    decreases c, 2, 0
  {
    if !c.Done? {
      if o != Normal && Head(c, w, o) {
        CutHead(c, w, o);
      } else {
        var i :| 0 <= i <= |w| && Head(c, w[..i], Normal) && Runs(c.next, w[i..], o);
        CutAnywhere(c.next, w[i..], o);
      }
    }
  }

  lemma {:induction false} CutHead(c: Code, w: seq<Event>, o: Outcome)
    requires !c.Done? && o != Normal && Head(c, w, o)
    ensures Head(c, w, Cut)
    decreases c, 1, 0
  {
    if w != [] {
      match c
      case Simple(_, _) =>
      case If(open, body, arms, _, _) =>
        var v := w[1..];
        if v != [] && v[0] == Take(WhenTrue) && Runs(body, v[1..], o) {
          CutAnywhere(body, v[1..], o);
        } else if RunsArm(arms, WhenFalse, v, o) {
          CutArm(arms, WhenFalse, v, o);
        }
      case Switch(open, body, arms, _, _) =>
        var v := w[1..];
        if v != [] && v[0] == Take(Case) && Runs(body, v[1..], o) {
          CutAnywhere(body, v[1..], o);
        } else if RunsArm(arms, Case, v, o) {
          CutArm(arms, Case, v, o);
        }
      case Loop(open, body, _, _) =>
        var n: nat :| Loops(body, n, w[1..], o);
        CutLoop(body, n, w[1..], o);
    }
  }

  lemma {:induction false} CutArm(arms: Arms, choice: Choice, v: seq<Event>, o: Outcome)
    requires RunsArm(arms, choice, v, o)
    ensures RunsArm(arms, choice, v, Cut)
    decreases arms, 2, 0
  {
    if |v| >= 2 && v[0] == Take(choice) && v[1] == Ex(arms.lead) && Runs(arms.body, v[2..], o) {
      CutAnywhere(arms.body, v[2..], o);
    } else if RunsArm(arms.rest, choice, v, o) {
      CutArm(arms.rest, choice, v, o);
    }
  }

  lemma {:induction false} CutLoop(body: Code, n: nat, u: seq<Event>, o: Outcome)
    requires Loops(body, n, u, o) && o != Normal
    ensures Loops(body, n, u, Cut)
    decreases body, 3, n
  {
    if o in {Stopped, Cut} && Runs(body, u, o) {
      CutAnywhere(body, u, o);
    } else {
      var i :| 0 <= i <= |u| && (Runs(body, u[..i], Normal) || Runs(body, u[..i], Continued)) && Loops(body, n - 1, u[i..], o);
      CutLoop(body, n - 1, u[i..], o);
    }
  }

  lemma {:induction false} CutAtStart(c: Code)
    ensures Runs(c, [], Cut)
  {
    if !c.Done? {
      assert Head(c, [], Cut);
    }
  }

  /** In `f` the code placed as `p` is complete: its blocks are as they were placed, its breaks lead to `brk`, and the
      block where it ends may have been continued. */
  ghost predicate Final(f: Graph, n: nat, current: nat, p: Placed, brk: nat) {
    && |p.g| <= |f|
    && forall b {:trigger f[b]} {:trigger p.g[b]} :: 0 <= b < |p.g| && Own(n, current, b) ==>
         if b == p.current then p.g[b].insts <= f[b].insts
         else if b in p.breaks then f[b] == Node(p.g[b].insts, [(Unconditional, brk)])
         else f[b] == p.g[b]
  }

  /** What is final for a sequence is final for its parts. */
  lemma FinalSplit(f: Graph, g: Graph, current: nat, first: Placed, rest: Placed, brk: nat)
    requires Framed(g, current, first) && Framed(first.g, first.current, rest)
    requires Final(f, |g|, current, Placed(rest.g, rest.current, first.breaks + rest.breaks), brk)
    ensures Final(f, |g|, current, first, brk) && Final(f, |first.g|, first.current, rest, brk)
  {
    var mine, more := first.breaks + [first.current], rest.breaks + [rest.current];
    assert mine[|first.breaks|] == first.current && more[|rest.breaks|] == rest.current;
    assert forall i :: 0 <= i < |first.breaks| ==> mine[i] == first.breaks[i];
    assert forall i :: 0 <= i < |rest.breaks| ==> more[i] == rest.breaks[i];
    forall b | b in rest.breaks || b == rest.current ensures Own(|first.g|, first.current, b) {
      var i :| 0 <= i < |more| && more[i] == b;
    }
    forall b | b in first.breaks ensures b < |first.g| && b != first.current {
      var i :| 0 <= i < |first.breaks| && mine[i] == b;
    }
  }

  /** In `f` the arms placed as `p` are complete and each leads to `merge`. */
  ghost predicate FinalArms(f: Graph, n: nat, current: nat, p: PlacedArms, brk: nat, merge: nat) {
    && |p.g| <= |f|
    && forall b {:trigger f[b]} {:trigger p.g[b]} :: 0 <= b < |p.g| && Own(n, current, b) ==>
         if b in Joined(p) then f[b] == Node(p.g[b].insts, [(EdgeKind.Fallthrough, merge)])
         else if b in p.breaks then f[b] == Node(p.g[b].insts, [(Unconditional, brk)])
         else f[b] == p.g[b]
  }

  /** Every waiting block of the arms is theirs. */
  lemma EndsOwn(g: Graph, n: nat, current: nat, p: PlacedArms)
    requires Waiting(p.g, n, current, p.exits + [p.current] + p.breaks)
    ensures forall b :: b in Joined(p) || b in p.breaks ==> Own(n, current, b) && b < |p.g|
    ensures forall b :: b in p.breaks ==> b !in Joined(p)
    ensures p.exits != [] && p.exits[0] == current ==> forall b :: b in p.breaks ==> b != current
  {
    var all, k := p.exits + [p.current] + p.breaks, |p.exits| + 1;
    assert forall i :: 0 <= i < k ==> all[i] == Joined(p)[i];
    assert forall i :: 0 <= i < |p.breaks| ==> all[k + i] == p.breaks[i];
  }

  /** What is final for several arms is final for the first and for the rest. */
  lemma FinalArmSplit(f: Graph, g: Graph, pre: nat, kind: EdgeKind, current: nat, lead: Tok, body: Placed, rest: PlacedArms,
                      starts: seq<nat>, brk: nat, merge: nat)
    requires pre < |g| && current < |g| && pre != current && g[current].out == []
    requires Framed(AddEdge(NewBlock(g, [lead]), pre, kind, |g|), |g|, body)
    requires FramedArms(body.g, pre, body.current, rest, kind, starts) && body.current in Joined(rest)
    requires FinalArms(f, |g|, current, PlacedArms(rest.g, rest.current, [current] + rest.exits, body.breaks + rest.breaks), brk, merge)
    ensures Final(f, |g| + 1, |g|, body, brk) && FinalArms(f, |body.g|, body.current, rest, brk, merge)
  {
    var p := PlacedArms(rest.g, rest.current, [current] + rest.exits, body.breaks + rest.breaks);
    EndsOwn(body.g, |body.g|, body.current, rest);
    ArmFramed(g, pre, kind, current, lead, body, rest, starts);
    EndsOwn(g, |g|, current, p);
    BreaksBelow(AddEdge(NewBlock(g, [lead]), pre, kind, |g|), |g|, body);
    assert forall b :: b in Joined(p) <==> b == current || b in Joined(rest);
    forall b | |g| <= b < |body.g|
      ensures if b == body.current then body.g[b].insts <= f[b].insts
              else if b in body.breaks then f[b] == Node(body.g[b].insts, [(Unconditional, brk)]) else f[b] == body.g[b]
    {
      assert rest.g[b] == body.g[b];
    }
    forall b | 0 <= b < |rest.g| && Own(|body.g|, body.current, b)
      ensures if b in Joined(rest) then f[b] == Node(rest.g[b].insts, [(EdgeKind.Fallthrough, merge)])
              else if b in rest.breaks then f[b] == Node(rest.g[b].insts, [(Unconditional, brk)]) else f[b] == rest.g[b]
    {
      assert b in body.breaks ==> b < |body.g| && b != body.current;
    }
  }

  lemma BreaksBelow(g: Graph, current: nat, p: Placed)
    requires Framed(g, current, p)
    ensures forall b :: b in p.breaks ==> b < |p.g| && b != p.current && Own(|g|, current, b)
  {
    var all := p.breaks + [p.current];
    assert all[|p.breaks|] == p.current && forall i :: 0 <= i < |p.breaks| ==> all[i] == p.breaks[i];
  }

  /** The last block of the arms before the region closes, or of the body when there is no arm. */
  lemma FirstEnd(a: Arms, g: Graph, pre: nat, kind: EdgeKind, current: nat, header: nat)
    ensures current in Joined(PlaceArms(a, g, pre, kind, current, header))
  {
    if a.Arm? {
      assert PlaceArms(a, g, pre, kind, current, header).exits[0] == current;
    }
  }

  function RegionMerge(c: Code, g: Graph, current: nat, header: nat): nat
    requires c.If? || c.Switch?
  {
    |ArmsOf(c, g, current, header).g|
  }

  function RegionEdges(c: Code, g: Graph, current: nat, header: nat): seq<(EdgeKind, nat)>
    requires c.If? || c.Switch?
  {
    [(FirstKind(c), |g|)] + EdgesTo(ArmKind(c), Starts(c.arms, BodyOf(c, g, current, header).g, current, ArmKind(c), header))
    + if c.If? && c.arms.NoArm? then [(ConditionalFalse, RegionMerge(c, g, current, header))] else []
  }

  /** A closed region: its opening block, its body and its arms are final, and each of them ends at the merge. */
  lemma FinalRegion(f: Graph, c: Code, g: Graph, current: nat, header: nat, brk: nat)
    requires (c.If? || c.Switch?) && current < |g| && g[current].out == []
    requires Final(f, |g|, current, PlaceHead(c, g, current, header), brk)
    ensures var body, arms, merge := BodyOf(c, g, current, header), ArmsOf(c, g, current, header), RegionMerge(c, g, current, header);
            var inner := if c.If? then brk else merge;
            && current < |f| && f[current] == Node(g[current].insts + [c.open], RegionEdges(c, g, current, header))
            && Final(f, |g| + 1, |g|, body, inner) && FinalArms(f, |body.g|, body.current, arms, inner, merge)
  {
    var body, arms, merge := BodyOf(c, g, current, header), ArmsOf(c, g, current, header), RegionMerge(c, g, current, header);
    var starts := Starts(c.arms, body.g, current, ArmKind(c), header);
    RegionPlaced(c, g, current, header);
    FirstEnd(c.arms, body.g, current, ArmKind(c), body.current, header);
    RegionOwn(f, c, g, current, header, brk);
    RegionParts(f, g, current, c.open, FirstKind(c), body, arms, ArmKind(c), starts, if c.If? then brk else merge, merge);
  }

  /** What the region's own blocks are in the end. */
  lemma RegionOwn(f: Graph, c: Code, g: Graph, current: nat, header: nat, brk: nat)
    requires (c.If? || c.Switch?) && current < |g| && g[current].out == []
    requires Final(f, |g|, current, PlaceHead(c, g, current, header), brk)
    ensures var body, arms, merge := BodyOf(c, g, current, header), ArmsOf(c, g, current, header), RegionMerge(c, g, current, header);
            && |arms.g| <= |f| && current < |f| && f[current] == Node(g[current].insts + [c.open], RegionEdges(c, g, current, header))
            && forall b {:trigger f[b]} :: |g| <= b < |arms.g| ==>
                 if b in Joined(arms) then f[b] == Node(arms.g[b].insts, [(EdgeKind.Fallthrough, merge)])
                 else if b in body.breaks + arms.breaks then f[b] == Node(arms.g[b].insts, [(Unconditional, if c.If? then brk else merge)])
                 else f[b] == arms.g[b]
  {
    var body, arms, merge := BodyOf(c, g, current, header), ArmsOf(c, g, current, header), RegionMerge(c, g, current, header);
    var starts := Starts(c.arms, body.g, current, ArmKind(c), header);
    RegionPlaced(c, g, current, header);
    if c.If? {
      IfOwn(f, g, current, c.open, body, arms, starts, c.arms.Arm?, brk);
    } else {
      SwitchOwn(f, g, current, c.open, body, arms, starts, brk);
    }
  }

  lemma IfOwn(f: Graph, g: Graph, current: nat, open: Tok, body: Placed, arms: PlacedArms, starts: seq<nat>, alternate: bool, brk: nat)
    requires current < |g| && g[current].out == []
    requires Framed(Opened(g, current, open, ConditionalTrue), |g|, body)
    requires FramedArms(body.g, current, body.current, arms, ConditionalFalse, starts)
    requires Final(f, |g|, current, Placed(IfGraph(arms, current, alternate), |arms.g|, body.breaks + arms.breaks), brk)
    ensures |arms.g| <= |f|
    ensures f[current] == Node(g[current].insts + [open], [(ConditionalTrue, |g|)] + EdgesTo(ConditionalFalse, starts)
                                                          + if alternate then [] else [(ConditionalFalse, |arms.g|)])
    ensures forall b {:trigger f[b]} :: |g| <= b < |arms.g| ==>
              if b in Joined(arms) then f[b] == Node(arms.g[b].insts, [(EdgeKind.Fallthrough, |arms.g|)])
              else if b in body.breaks + arms.breaks then f[b] == Node(arms.g[b].insts, [(Unconditional, brk)])
              else f[b] == arms.g[b]
  {
    RegionFramed(g, current, open, ConditionalTrue, body, arms, ConditionalFalse, starts);
    SplitEnds(|g|, arms, body.breaks);
    MergedFacts(arms.g, Joined(arms));
  }

  lemma SwitchOwn(f: Graph, g: Graph, current: nat, open: Tok, body: Placed, arms: PlacedArms, starts: seq<nat>, brk: nat)
    requires current < |g| && g[current].out == []
    requires Framed(Opened(g, current, open, EdgeKind.SwitchCase), |g|, body)
    requires FramedArms(body.g, current, body.current, arms, EdgeKind.SwitchCase, starts)
    requires Final(f, |g|, current, Placed(SwitchGraph(arms, body.breaks + arms.breaks), |arms.g|, []), brk)
    ensures |arms.g| <= |f|
    ensures f[current] == Node(g[current].insts + [open], [(EdgeKind.SwitchCase, |g|)] + EdgesTo(EdgeKind.SwitchCase, starts) + [])
    ensures forall b {:trigger f[b]} :: |g| <= b < |arms.g| ==>
              if b in Joined(arms) then f[b] == Node(arms.g[b].insts, [(EdgeKind.Fallthrough, |arms.g|)])
              else if b in body.breaks + arms.breaks then f[b] == Node(arms.g[b].insts, [(Unconditional, |arms.g|)])
              else f[b] == arms.g[b]
  {
    hide Framed, FramedArms, Opened, SwitchGraph;
    RegionFramed(g, current, open, EdgeKind.SwitchCase, body, arms, EdgeKind.SwitchCase, starts);
    SplitEnds(|g|, arms, body.breaks);
    SwitchFacts(g, current, open, body, arms, starts);
  }

  lemma RegionParts(f: Graph, g: Graph, current: nat, open: Tok, first: EdgeKind, body: Placed, arms: PlacedArms, kind: EdgeKind,
                    starts: seq<nat>, inner: nat, merge: nat)
    requires current < |g| && g[current].out == []
    requires Framed(Opened(g, current, open, first), |g|, body) && FramedArms(body.g, current, body.current, arms, kind, starts)
    requires |arms.g| <= |f| && body.current in Joined(arms)
    requires forall b {:trigger f[b]} :: |g| <= b < |arms.g| ==>
               if b in Joined(arms) then f[b] == Node(arms.g[b].insts, [(EdgeKind.Fallthrough, merge)])
               else if b in body.breaks + arms.breaks then f[b] == Node(arms.g[b].insts, [(Unconditional, inner)])
               else f[b] == arms.g[b]
    ensures Final(f, |g| + 1, |g|, body, inner) && FinalArms(f, |body.g|, body.current, arms, inner, merge)
  {
    EndsOwn(body.g, |body.g|, body.current, arms);
    BreaksBelow(Opened(g, current, open, first), |g|, body);
    forall b | |g| <= b < |body.g|
      ensures if b == body.current then body.g[b].insts <= f[b].insts
              else if b in body.breaks then f[b] == Node(body.g[b].insts, [(Unconditional, inner)]) else f[b] == body.g[b]
    {
      assert arms.g[b] == body.g[b];
    }
    assert (body.breaks + [body.current])[|body.breaks|] == body.current;
    forall b | 0 <= b < |arms.g| && Own(|body.g|, body.current, b)
      ensures if b in Joined(arms) then f[b] == Node(arms.g[b].insts, [(EdgeKind.Fallthrough, merge)])
              else if b in arms.breaks then f[b] == Node(arms.g[b].insts, [(Unconditional, inner)]) else f[b] == arms.g[b]
    {
      assert b in body.breaks ==> b < |body.g| && b != body.current;
    }
  }

  /** A closed loop: its body is final, and its end leads back to the header. */
  lemma FinalLoop(f: Graph, c: Code, g: Graph, current: nat, header: nat, brk: nat)
    requires c.Loop? && current < |g| && g[current].out == []
    requires Final(f, |g|, current, PlaceHead(c, g, current, header), brk)
    ensures var body := Place(c.body, Opened(g, current, c.open, EdgeKind.Fallthrough), |g|, |g|);
            && current < |f| && f[current] == Node(g[current].insts + [c.open], [(EdgeKind.Fallthrough, |g|)])
            && body.current < |body.g| <= |f| && f[body.current] == Node(body.g[body.current].insts, [(Back, |g|)])
            && Final(f, |g| + 1, |g|, body, |body.g|)
  {
    var body := Place(c.body, Opened(g, current, c.open, EdgeKind.Fallthrough), |g|, |g|);
    PlaceFramed(c.body, Opened(g, current, c.open, EdgeKind.Fallthrough), |g|, |g|);
    LoopWaiting(g, current, c.open, body);
    LoopFacts(g, current, c.open, body);
  }
}
