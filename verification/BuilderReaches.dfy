/** Every execution of the structured program is a path through the built graph. */
module BuilderReaches {
  import opened EdgeKinds
  import opened StructuredCode
  import opened Wrappers
  import opened Builder
  import opened BuilderLayout
  import opened BuilderPaths
  import opened BuilderFollows

  /** Where an execution leaves the path that shows it: one that stops has no way on, in a block before the normal end. */
  ghost predicate Ends(f: Graph, to: At, o: Outcome, normal: At, brk: nat, header: nat) {
    if o == Cut then true
    else if o == Stopped then DeadEnd(f, to) && to.block < normal.block
    else to == Where(o, normal, brk, header)
  }

  /** What crossing an edge shows. */
  function Shows(kind: EdgeKind): seq<Event> {
    match ChoiceOf(kind)
    case None => []
    case Some(c) => [Take(c)]
  }

  lemma StepOver(f: Graph, from: At, t: Tok)
    requires from.block < |f| && from.idx < |f[from.block].insts| && f[from.block].insts[from.idx] == t
    ensures Path(f, from, [Ex(t)], At(from.block, from.idx + 1), 1)
  {
    assert [Ex(t)][1..] == [];
    assert Path(f, At(from.block, from.idx + 1), [], At(from.block, from.idx + 1), 0);
  }

  lemma StepAlong(f: Graph, from: At, e: nat)
    requires from.block < |f| && from.idx >= |f[from.block].insts| && e < |f[from.block].out|
    ensures Path(f, from, Shows(f[from.block].out[e].0), At(f[from.block].out[e].1, 0), 1)
  {
    var edge := f[from.block].out[e];
    var w := Shows(edge.0);
    assert Path(f, At(edge.1, 0), [], At(edge.1, 0), 0);
    assert ChoiceOf(edge.0).Some? ==> w[1..] == [];
    assert Crosses(f, edge, w, At(edge.1, 0), 0);
  }

  /** A path may go on along a silent edge. */
  lemma GoOn(f: Graph, from: At, w: seq<Event>, mid: At, n: nat, kind: EdgeKind, next: nat)
    requires Path(f, from, w, mid, n) && ChoiceOf(kind).None?
    requires mid.block < |f| && mid.idx >= |f[mid.block].insts| && f[mid.block].out == [(kind, next)]
    ensures Path(f, from, w, At(next, 0), n + 1)
  {
    StepAlong(f, mid, 0);
    PathJoin(f, from, w, mid, n, [], At(next, 0), 1);
    assert w + [] == w;
  }

  /** An instruction at the end of its block, and then an edge. */
  lemma StepAndTake(f: Graph, from: At, t: Tok, e: nat)
    requires from.block < |f| && |f[from.block].insts| == from.idx + 1 && f[from.block].insts[from.idx] == t
    requires e < |f[from.block].out|
    ensures Path(f, from, [Ex(t)] + Shows(f[from.block].out[e].0), At(f[from.block].out[e].1, 0), 2)
  {
    var mid := At(from.block, from.idx + 1);
    StepOver(f, from, t);
    StepAlong(f, mid, e);
    PathJoin(f, from, [Ex(t)], mid, 1, Shows(f[from.block].out[e].0), At(f[from.block].out[e].1, 0), 1);
  }

  lemma ReachFork(t: Tok, f: Graph, current: nat, idx: nat, aside: nat, onwards: nat, away: Outcome, w: seq<Event>, o: Outcome)
    returns (to: At, n: nat)
    requires current < |f| && |f[current].insts| == idx + 1 && f[current].insts[idx] == t
    requires f[current].out == [(ConditionalTrue, aside), (ConditionalFalse, onwards)]
    requires Forks(t, w, o, away) && away in {Stopped, Broke, Continued}
    ensures Path(f, At(current, idx), w, to, n)
    ensures o == Normal ==> to == At(onwards, 0)
    ensures o == away ==> to == At(aside, 0)
  {
    StepOver(f, At(current, idx), t);
    StepAndTake(f, At(current, idx), t, 0);
    StepAndTake(f, At(current, idx), t, 1);
    if w == [Ex(t)] {
      to, n := At(current, idx + 1), 1;
    } else if w == [Ex(t), Take(WhenTrue)] {
      assert w == [Ex(t)] + Shows(ConditionalTrue);
      to, n := At(aside, 0), 2;
    } else {
      assert w == [Ex(t)] + Shows(ConditionalFalse);
      to, n := At(onwards, 0), 2;
    }
  }

  lemma ReachForks(t: Tok, f: Graph, g: Graph, current: nat, header: nat, brk: nat, w: seq<Event>, o: Outcome)
    returns (to: At, n: nat)
    requires current < |g| && g[current].out == [] && t.effect in {ConditionalReturn, ConditionalBreak, ConditionalContinue}
    requires Final(f, |g|, current, PlaceSimple(t, g, current, header), brk)
    requires w != [] && SimpleRuns(t, w, o)
    ensures Path(f, At(current, |g[current].insts|), w, to, n)
    ensures Ends(f, to, o, EndOf(PlaceSimple(t, g, current, header)), brk, header)
  {
    hide Final, PlaceSimple, Path;
    var away, idx := AwayOf(t), |g[current].insts|;
    var aside, onwards := if away == Continued then header else |g|, if away == Continued then |g| else |g| + 1;
    ForkBlocks(t, f, g, current, header, brk);
    to, n := ReachFork(t, f, current, idx, aside, onwards, away, w, o);
    if o == Broke {
      GoOn(f, At(current, idx), w, to, n, Unconditional, brk);
      to, n := At(brk, 0), n + 1;
    }
  }

  lemma ReachSimple(t: Tok, f: Graph, g: Graph, current: nat, header: nat, brk: nat, w: seq<Event>, o: Outcome)
    returns (to: At, n: nat)
    requires current < |g| && g[current].out == []
    requires Final(f, |g|, current, PlaceSimple(t, g, current, header), brk) && SimpleRuns(t, w, o)
    ensures Path(f, At(current, |g[current].insts|), w, to, n)
    ensures Ends(f, to, o, EndOf(PlaceSimple(t, g, current, header)), brk, header)
  {
    if w == [] {
      to, n := At(current, |g[current].insts|), 0;
    } else if t.effect == Label {
      to, n := ReachLabel(t, f, g, current, header, brk);
    } else if t.effect in {ConditionalReturn, ConditionalBreak, ConditionalContinue} {
      to, n := ReachForks(t, f, g, current, header, brk, w, o);
    } else {
      to, n := ReachStraight(t, f, g, current, header, brk, w, o);
    }
  }

  lemma ReachLabel(t: Tok, f: Graph, g: Graph, current: nat, header: nat, brk: nat) returns (to: At, n: nat)
    requires current < |g| && g[current].out == [] && t.effect == Label
    requires Final(f, |g|, current, PlaceSimple(t, g, current, header), brk)
    ensures Path(f, At(current, |g[current].insts|), [Ex(t)], to, n) && to == EndOf(PlaceSimple(t, g, current, header))
  {
    hide PlaceSimple, Final;
    LabelBlocks(t, f, g, current, header, brk);
    StepAlong(f, At(current, |g[current].insts|), 0);
    StepOver(f, At(|g|, 0), t);
    to, n := At(|g|, 1), 2;
    PathJoin(f, At(current, |g[current].insts|), [], At(|g|, 0), 1, [Ex(t)], to, 1);
    assert [] + [Ex(t)] == [Ex(t)];
  }

  lemma ReachStraight(t: Tok, f: Graph, g: Graph, current: nat, header: nat, brk: nat, w: seq<Event>, o: Outcome)
    returns (to: At, n: nat)
    requires current < |g| && g[current].out == []
    requires t.effect !in {Label, ConditionalReturn, ConditionalBreak, ConditionalContinue}
    requires Final(f, |g|, current, PlaceSimple(t, g, current, header), brk) && w != [] && SimpleRuns(t, w, o)
    ensures Path(f, At(current, |g[current].insts|), w, to, n)
    ensures Ends(f, to, o, EndOf(PlaceSimple(t, g, current, header)), brk, header)
  {
    var p, idx := PlaceSimple(t, g, current, header), |g[current].insts|;
    assert p.g[current].insts == g[current].insts + [t] && f[current].insts[idx] == t;
    StepOver(f, At(current, idx), t);
    to, n := At(current, idx + 1), 1;
    if !IsPlain(t) {
      assert f[current].insts == p.g[current].insts;
      if t.effect == Break && o == Broke {
        GoOn(f, At(current, idx), w, to, n, Unconditional, brk);
        to, n := At(brk, 0), 2;
      } else if t.effect == Continue && o == Continued {
        GoOn(f, At(current, idx), w, to, n, Back, header);
        to, n := At(header, 0), 2;
      } else if o == Normal {
        StepAndTake(f, At(current, idx), t, 0);
        assert w == [Ex(t)] + Shows(ConditionalFalse);
        to, n := At(|g|, 0), 2;
      }
    }
  }

  /** Every execution of placed code is a path from where it was placed to where its outcome leads. */
  lemma {:induction false} Reach(c: Code, f: Graph, g: Graph, current: nat, header: nat, brk: nat, w: seq<Event>, o: Outcome)
    returns (to: At, n: nat)
    requires current < |g| && g[current].out == [] && Final(f, |g|, current, Place(c, g, current, header), brk) && Runs(c, w, o)
    ensures Place(c, g, current, header).current < |Place(c, g, current, header).g|
    ensures Path(f, At(current, |g[current].insts|), w, to, n)
    ensures Ends(f, to, o, EndOf(Place(c, g, current, header)), brk, header)
    decreases c, 6, 0
  {
    if c.Done? {
      to, n := At(current, |g[current].insts|), 0;
    } else {
      var first := PlaceHead(c, g, current, header);
      SequenceParts(c, f, g, current, header, brk);
      if o != Normal && Head(c, w, o) {
        to, n := ReachHead(c, f, g, current, header, brk, w, o);
      } else {
        var i :| 0 <= i <= |w| && Head(c, w[..i], Normal) && Runs(c.next, w[i..], o);
        var mid, m := ReachHead(c, f, g, current, header, brk, w[..i], Normal);
        to, n := ReachRest(c, f, first, header, brk, At(current, |g[current].insts|), w, i, m, o);
      }
    }
  }

  lemma {:induction false} ReachRest(c: Code, f: Graph, first: Placed, header: nat, brk: nat, from: At, w: seq<Event>, i: nat, m: nat,
                                     o: Outcome)
    returns (to: At, n: nat)
    requires !c.Done? && first.current < |first.g| && first.g[first.current].out == [] && i <= |w| && Runs(c.next, w[i..], o)
    requires Final(f, |first.g|, first.current, Place(c.next, first.g, first.current, header), brk)
    requires Path(f, from, w[..i], EndOf(first), m)
    ensures Place(c.next, first.g, first.current, header).current < |Place(c.next, first.g, first.current, header).g|
    ensures Path(f, from, w, to, n) && Ends(f, to, o, EndOf(Place(c.next, first.g, first.current, header)), brk, header)
    decreases c, 5, 0
  {
    hide Final, FinalArms, Place, PlaceHead, PlaceArms, Runs, Head, Loops, Path;
    var k;
    to, k := Reach(c.next, f, first.g, first.current, header, brk, w[i..], o);
    n := m + k;
    PathJoin(f, from, w[..i], EndOf(first), m, w[i..], to, k);
    assert w[..i] + w[i..] == w;
  }

  lemma {:induction false} ReachHead(c: Code, f: Graph, g: Graph, current: nat, header: nat, brk: nat, w: seq<Event>, o: Outcome)
    returns (to: At, n: nat)
    requires !c.Done? && current < |g| && g[current].out == []
    requires Final(f, |g|, current, PlaceHead(c, g, current, header), brk) && Head(c, w, o)
    ensures PlaceHead(c, g, current, header).current < |PlaceHead(c, g, current, header).g|
    ensures Path(f, At(current, |g[current].insts|), w, to, n)
    ensures Ends(f, to, o, EndOf(PlaceHead(c, g, current, header)), brk, header)
    decreases c, 4, 0
  {
    PlaceHeadFramed(c, g, current, header);
    if c.Simple? {
      to, n := ReachSimple(c.tok, f, g, current, header, brk, w, o);
    } else if w == [] {
      to, n := At(current, |g[current].insts|), 0;
    } else if c.Loop? {
      to, n := ReachLoop(c, f, g, current, header, brk, w, o);
    } else {
      to, n := ReachRegion(c, f, g, current, header, brk, w, o);
    }
  }

  lemma LoopTurns(c: Code, w: seq<Event>, o: Outcome) returns (turns: nat)
    requires c.Loop? && w != [] && Head(c, w, o)
    ensures w[0] == Ex(c.open) && Loops(c.body, turns, w[1..], o)
  {
    turns :| Loops(c.body, turns, w[1..], o);
  }

  lemma {:induction false} ReachLoop(c: Code, f: Graph, g: Graph, current: nat, header: nat, brk: nat, w: seq<Event>, o: Outcome)
    returns (to: At, n: nat)
    requires c.Loop? && current < |g| && g[current].out == []
    requires Final(f, |g|, current, PlaceHead(c, g, current, header), brk) && w != [] && Head(c, w, o)
    requires PlaceHead(c, g, current, header).current < |PlaceHead(c, g, current, header).g|
    ensures Path(f, At(current, |g[current].insts|), w, to, n)
    ensures Ends(f, to, o, EndOf(PlaceHead(c, g, current, header)), brk, header)
    decreases c, 3, 0
  {
    hide Final, FinalArms, Place, PlaceHead, PlaceArms, Runs, Head, Loops, Path;
    var turns := LoopTurns(c, w, o);
    var fork := Opened(g, current, c.open, EdgeKind.Fallthrough);
    var body := Place(c.body, fork, |g|, |g|);
    LoopParts(c, f, g, current, header, brk);
    var from, k := At(current, |g[current].insts|), 0;
    to, k := ReachTurns(c.body, f, fork, |g|, body, |body.g|, turns, w[1..], o);
    StepAndTake(f, from, c.open, 0);
    assert [Ex(c.open)] + [] == [Ex(c.open)] && [Ex(c.open)] + w[1..] == w;
    PathJoin(f, from, [Ex(c.open)], At(|g|, 0), 2, w[1..], to, k);
    n := 2 + k;
  }

  lemma {:induction false} ReachTurns(c: Code, f: Graph, fork: Graph, header: nat, body: Placed, post: nat, turns: nat, w: seq<Event>,
                                      o: Outcome)
    returns (to: At, n: nat)
    requires header < |fork| && fork[header] == Node([], []) && body == Place(c, fork, header, header)
    requires body.current < |body.g| <= |f| && f[body.current] == Node(body.g[body.current].insts, [(Back, header)])
    requires Final(f, |fork|, header, body, post) && body.current < post && Loops(c, turns, w, o)
    ensures Path(f, At(header, 0), w, to, n) && o in {Normal, Stopped, Cut} && Ends(f, to, o, At(post, 0), post, header)
    decreases c, 7, turns
  {
    hide Final, FinalArms, Place, PlaceHead, PlaceArms, Runs, Head, Path;
    if o in {Stopped, Cut} && Runs(c, w, o) {
      to, n := Reach(c, f, fork, header, header, post, w, o);
    } else if o == Normal && Runs(c, w, Broke) {
      to, n := Reach(c, f, fork, header, header, post, w, Broke);
    } else {
      var i :| 0 <= i <= |w| && (Runs(c, w[..i], Normal) || Runs(c, w[..i], Continued)) && Loops(c, turns - 1, w[i..], o);
      var k := ReachRound(c, f, fork, header, body, post, w[..i]);
      var m;
      to, m := ReachTurns(c, f, fork, header, body, post, turns - 1, w[i..], o);
      PathJoin(f, At(header, 0), w[..i], At(header, 0), k, w[i..], to, m);
      assert w[..i] + w[i..] == w;
      n := k + m;
    }
  }

  /** One turn that comes round again. */
  lemma {:induction false} ReachRound(c: Code, f: Graph, fork: Graph, header: nat, body: Placed, post: nat, w: seq<Event>)
    returns (n: nat)
    requires header < |fork| && fork[header] == Node([], []) && body == Place(c, fork, header, header)
    requires body.current < |body.g| <= |f| && f[body.current] == Node(body.g[body.current].insts, [(Back, header)])
    requires Final(f, |fork|, header, body, post) && (Runs(c, w, Normal) || Runs(c, w, Continued))
    ensures Path(f, At(header, 0), w, At(header, 0), n)
    decreases c, 7, 0
  {
    var to;
    if Runs(c, w, Normal) {
      to, n := Reach(c, f, fork, header, header, post, w, Normal);
      GoOn(f, At(header, 0), w, to, n, Back, header);
      n := n + 1;
    } else {
      to, n := Reach(c, f, fork, header, header, post, w, Continued);
    }
  }

  lemma {:induction false} ReachRegion(c: Code, f: Graph, g: Graph, current: nat, header: nat, brk: nat, w: seq<Event>, o: Outcome)
    returns (to: At, n: nat)
    requires (c.If? || c.Switch?) && current < |g| && g[current].out == []
    requires Final(f, |g|, current, PlaceHead(c, g, current, header), brk) && w != [] && Head(c, w, o)
    requires PlaceHead(c, g, current, header).current < |PlaceHead(c, g, current, header).g|
    ensures Path(f, At(current, |g[current].insts|), w, to, n)
    ensures Ends(f, to, o, EndOf(PlaceHead(c, g, current, header)), brk, header)
    decreases c, 3, 0
  {
    hide Final, FinalArms, Place, PlaceHead, PlaceArms, Runs, Loops, RunsArm;
    var from := At(current, |g[current].insts|);
    RegionOwn(f, c, g, current, header, brk);
    MergeEmpty(c, g, current, header);
    StepOver(f, from, c.open);
    if |w| == 1 {
      OnlyOpened(c, w, o);
      to, n := At(current, from.idx + 1), 1;
    } else {
      var e, k;
      e, to, k := ReachEdge(c, f, g, current, header, brk, w, o);
      StepAndTake(f, from, c.open, e);
      EdgeShown(c, g, current, header, e);
      assert [Ex(c.open)] + [w[1]] + w[2..] == w;
      PathJoin(f, from, [Ex(c.open)] + [w[1]], At(RegionEdges(c, g, current, header)[e].1, 0), 2, w[2..], to, k);
      n := 2 + k;
    }
  }

  lemma {:induction false} ArmTakes(arms: Arms, choice: Choice, v: seq<Event>, o: Outcome)
    requires RunsArm(arms, choice, v, o)
    ensures v != [] && v[0] == Take(choice)
    decreases arms
  {
    if v == [] || v[0] != Take(choice) {
      ArmTakes(arms.rest, choice, v, o);
    }
  }

  /** An execution of a region that has only opened it is cut there. */
  lemma OnlyOpened(c: Code, w: seq<Event>, o: Outcome)
    requires (c.If? || c.Switch?) && |w| == 1 && Head(c, w, o)
    ensures w == [Ex(c.open)] && o == Cut
  {
    var v := w[1..];
    if RunsArm(c.arms, ArmChoice(c), v, o) {
      ArmTakes(c.arms, ArmChoice(c), v, o);
    }
    if RunsArm(c.arms, ArmChoice(c), v, Broke) {
      ArmTakes(c.arms, ArmChoice(c), v, Broke);
    }
    assert v == [];
    if c.Switch? {
      assert !RunsCase(c, v, o) && !RunsCase(c, v, Broke);
    }
  }

  lemma EdgeShown(c: Code, g: Graph, current: nat, header: nat, e: nat)
    requires (c.If? || c.Switch?) && e < |RegionEdges(c, g, current, header)|
    ensures Shows(RegionEdges(c, g, current, header)[e].0) == [Take(if e == 0 then FirstChoice(c) else ArmChoice(c))]
  {
    RegionEdgeAt(c, g, current, header, e);
  }

  /** Where the edge of a region leads, and what happens from there. */
  lemma {:induction false} ReachEdge(c: Code, f: Graph, g: Graph, current: nat, header: nat, brk: nat, w: seq<Event>, o: Outcome)
    returns (e: nat, to: At, n: nat)
    requires (c.If? || c.Switch?) && current < |g| && g[current].out == []
    requires Final(f, |g|, current, PlaceHead(c, g, current, header), brk) && |w| >= 2 && Head(c, w, o)
    ensures e < |RegionEdges(c, g, current, header)| && w[1] == Take(if e == 0 then FirstChoice(c) else ArmChoice(c))
    ensures Path(f, At(RegionEdges(c, g, current, header)[e].1, 0), w[2..], to, n)
    ensures Ends(f, to, o, At(RegionMerge(c, g, current, header), 0), brk, header)
    decreases c, 2, 0
  {
    hide Final, FinalArms, Place, PlaceHead, PlaceArms, Runs, Head, Loops, RunsArm;
    var merge, starts := RegionMerge(c, g, current, header), ArmStarts(c, g, current, header);
    var took, inside := ChooseHead(c, w, o);
    if took == 0 {
      RegionEdgeAt(c, g, current, header, 0);
      e := 0;
      to, n := ReachBody(c, f, g, current, header, brk, w[2..], inside);
    } else if took == 1 {
      var j;
      j, to, n := ReachArmOf(c, f, g, current, header, brk, w[1..], inside);
      e := j + 1;
      RegionEdgeAt(c, g, current, header, e);
      assert w[1..][1..] == w[2..];
    } else {
      e := |starts| + 1;
      RegionEdgeAt(c, g, current, header, e);
      to, n := At(merge, 0), 0;
      assert w[2..] == [];
    }
  }

  /** Which part of a region an execution takes, and how that part ends. */
  lemma ChooseHead(c: Code, w: seq<Event>, o: Outcome) returns (took: nat, inside: Outcome)
    requires (c.If? || c.Switch?) && |w| >= 2 && Head(c, w, o)
    ensures o == RegionOutcome(c, inside)
    ensures match took
            case 0 => w[1] == Take(FirstChoice(c)) && Runs(c.body, w[2..], inside)
            case 1 => RunsArm(c.arms, ArmChoice(c), w[1..], inside)
            case _ => took == 2 && c.If? && c.arms.NoArm? && |w| == 2 && w[1] == Take(WhenFalse) && inside == Normal
  {
    var v := w[1..];
    assert v[1..] == w[2..] && v[0] == w[1];
    if c.If? {
      inside := o;
      took := if v[0] == Take(WhenTrue) && Runs(c.body, v[1..], o) then 0 else if RunsArm(c.arms, WhenFalse, v, o) then 1 else 2;
    } else {
      inside := if RunsCase(c, v, o) then o else Broke;
      took := if v[0] == Take(Case) && Runs(c.body, v[1..], inside) then 0 else 1;
    }
  }

  lemma {:induction false} ReachBody(c: Code, f: Graph, g: Graph, current: nat, header: nat, brk: nat, w: seq<Event>, o: Outcome)
    returns (to: At, n: nat)
    requires (c.If? || c.Switch?) && current < |g| && g[current].out == []
    requires Final(f, |g|, current, PlaceHead(c, g, current, header), brk) && Runs(c.body, w, o)
    ensures Path(f, At(|g|, 0), w, to, n)
    ensures Ends(f, to, RegionOutcome(c, o), At(RegionMerge(c, g, current, header), 0), brk, header)
    decreases c, 1, 0
  {
    hide Final, FinalArms, Place, PlaceHead, PlaceArms, Runs, Head, Loops, Path;
    var merge := RegionMerge(c, g, current, header);
    BodyParts(c, f, g, current, header, brk);
    to, n := Reach(c.body, f, Opened(g, current, c.open, FirstKind(c)), |g|, header, if c.If? then brk else merge, w, o);
    if o == Normal {
      GoOn(f, At(|g|, 0), w, to, n, EdgeKind.Fallthrough, merge);
      to, n := At(merge, 0), n + 1;
    }
  }

  lemma {:induction false} ReachArmOf(c: Code, f: Graph, g: Graph, current: nat, header: nat, brk: nat, w: seq<Event>, o: Outcome)
    returns (j: nat, to: At, n: nat)
    requires (c.If? || c.Switch?) && current < |g| && g[current].out == []
    requires Final(f, |g|, current, PlaceHead(c, g, current, header), brk) && RunsArm(c.arms, ArmChoice(c), w, o)
    ensures j < |ArmStarts(c, g, current, header)| && w != [] && w[0] == Take(ArmChoice(c))
    ensures Path(f, At(ArmStarts(c, g, current, header)[j], 0), w[1..], to, n)
    ensures Ends(f, to, RegionOutcome(c, o), At(RegionMerge(c, g, current, header), 0), brk, header)
    decreases c, 1, 0
  {
    hide Final, FinalArms, Place, PlaceHead, PlaceArms, Runs, Head, Loops, Path, RunsArm;
    var merge, body := RegionMerge(c, g, current, header), BodyOf(c, g, current, header);
    FinalRegion(f, c, g, current, header, brk);
    FramesForArms(c, g, current, header);
    j, to, n := ReachArm(c.arms, f, body.g, current, ArmKind(c), body.current, header, if c.If? then brk else merge, merge, w, o);
  }

  function KindChoice(kind: EdgeKind): Choice { if kind == ConditionalFalse then WhenFalse else Case }

  /** The arm an execution takes, from its first block to where it joins the others. */
  lemma {:induction false} ReachArm(a: Arms, f: Graph, g: Graph, pre: nat, kind: EdgeKind, current: nat, header: nat, brk: nat, merge: nat,
                                    w: seq<Event>, o: Outcome)
    returns (j: nat, to: At, n: nat)
    requires pre < |g| && current < |g| && pre != current && g[current].out == []
    requires FinalArms(f, |g|, current, PlaceArms(a, g, pre, kind, current, header), brk, merge)
    requires |PlaceArms(a, g, pre, kind, current, header).g| <= merge
    requires RunsArm(a, KindChoice(kind), w, o)
    ensures j < |Starts(a, g, pre, kind, header)| && w != [] && w[0] == Take(KindChoice(kind))
    ensures Path(f, At(Starts(a, g, pre, kind, header)[j], 0), w[1..], to, n) && Ends(f, to, o, At(merge, 0), brk, header)
    decreases a, 1, 0
  {
    hide Final, FinalArms, Place, PlaceHead, Runs, Head;
    var fork := AddEdge(NewBlock(g, [a.lead]), pre, kind, |g|);
    var body := Place(a.body, fork, |g|, header);
    var rest := PlaceArms(a.rest, body.g, pre, kind, body.current, header);
    ArmParts(a, f, g, pre, kind, current, header, brk, merge);
    if w == [Take(KindChoice(kind))] && o == Cut {
      j, to, n := 0, At(|g|, 0), 0;
    } else if |w| >= 2 && w[0] == Take(KindChoice(kind)) && w[1] == Ex(a.lead) && Runs(a.body, w[2..], o) {
      j := 0;
      to, n := ReachArmBody(a, f, fork, |g|, header, brk, merge, body, w[1..], o);
    } else {
      j, to, n := ReachArm(a.rest, f, body.g, pre, kind, body.current, header, brk, merge, w, o);
      j := j + 1;
    }
  }

  lemma {:induction false} ReachArmBody(a: Arms, f: Graph, fork: Graph, start: nat, header: nat, brk: nat, merge: nat, body: Placed,
                                        w: seq<Event>, o: Outcome)
    returns (to: At, n: nat)
    requires a.Arm? && start < |fork| && fork[start] == Node([a.lead], []) && start < |f| && f[start].insts != []
    requires f[start].insts[0] == a.lead
    requires body == Place(a.body, fork, start, header) && body.current < |body.g| <= |f| && Final(f, |fork|, start, body, brk)
    requires f[body.current] == Node(body.g[body.current].insts, [(EdgeKind.Fallthrough, merge)])
    requires body.current < merge
    requires w != [] && w[0] == Ex(a.lead) && Runs(a.body, w[1..], o)
    ensures Path(f, At(start, 0), w, to, n) && Ends(f, to, o, At(merge, 0), brk, header)
    decreases a, 0, 0
  {
    hide Final, FinalArms, Place, PlaceHead, PlaceArms, Runs, Head, Loops;
    var k;
    to, k := Reach(a.body, f, fork, start, header, brk, w[1..], o);
    StepOver(f, At(start, 0), a.lead);
    PathJoin(f, At(start, 0), [Ex(a.lead)], At(start, 1), 1, w[1..], to, k);
    assert [Ex(a.lead)] + w[1..] == w;
    n := 1 + k;
    if o == Normal {
      GoOn(f, At(start, 0), w, to, n, EdgeKind.Fallthrough, merge);
      to, n := At(merge, 0), n + 1;
    }
  }
}
