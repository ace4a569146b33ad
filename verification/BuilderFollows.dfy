/** Every path through the built graph is an execution of the structured program. */
module BuilderFollows {
  import opened EdgeKinds
  import opened StructuredCode
  import opened Wrappers
  import opened Builder
  import opened BuilderLayout
  import opened BuilderPaths

  /** How a path splits where some code ends: how that execution ended, and after how many events and steps. */
  datatype Split = Split(o: Outcome, i: nat, k: nat)

  /** Where an outcome leads. */
  function Where(o: Outcome, normal: At, brk: nat, header: nat): At {
    if o == Normal then normal else if o == Broke then At(brk, 0) else At(header, 0)
  }

  /** The path goes on where the code's outcome leads, or ends inside it. */
  ghost predicate Arrives(f: Graph, s: Split, w: seq<Event>, to: At, n: nat, normal: At, brk: nat, header: nat) {
    && s.i <= |w| && s.k <= n
    && if s.o in {Stopped, Cut} then s.i == |w|
       else (s.o != Normal ==> s.k > 0) && Path(f, Where(s.o, normal, brk, header), w[s.i..], to, n - s.k)
  }

  /** Nothing left to execute, and no way on. */
  ghost predicate DeadEnd(f: Graph, at: At) { at.block < |f| && at.idx >= |f[at.block].insts| && f[at.block].out == [] }

  ghost predicate CanGoOn(f: Graph, at: At) { at.block < |f| && (at.idx < |f[at.block].insts| || f[at.block].out != []) }

  /** A path that is cut can go on; one that stops has no way on, in a block below `bound`. */
  ghost predicate Halts(f: Graph, o: Outcome, to: At, bound: nat) {
    (o == Cut ==> CanGoOn(f, to)) && (o == Stopped ==> DeadEnd(f, to) && to.block < bound)
  }

  function EndOf(p: Placed): At
    requires p.current < |p.g|
  {
    At(p.current, |p.g[p.current].insts|)
  }

  /** The first step from just before an instruction. */
  lemma StepInside(f: Graph, from: At, t: Tok, w: seq<Event>, to: At, n: nat)
    requires Path(f, from, w, to, n) && n > 0 && from.block < |f| && from.idx < |f[from.block].insts|
    requires f[from.block].insts[from.idx] == t
    ensures w != [] && w[0] == Ex(t) && Path(f, At(from.block, from.idx + 1), w[1..], to, n - 1)
    ensures w[..1] == [Ex(t)]
  {
  }

  /** The first step from the end of a block with one edge. */
  lemma StepAcross(f: Graph, from: At, kind: EdgeKind, next: nat, w: seq<Event>, to: At, n: nat)
    requires Path(f, from, w, to, n) && n > 0 && from.block < |f| && from.idx >= |f[from.block].insts|
    requires f[from.block].out == [(kind, next)]
    ensures Crosses(f, (kind, next), w, to, n - 1)
  {
    var e :| 0 <= e < |f[from.block].out| && Crosses(f, f[from.block].out[e], w, to, n - 1);
  }

  lemma StepEither(f: Graph, from: At, a: (EdgeKind, nat), b: (EdgeKind, nat), w: seq<Event>, to: At, n: nat)
    requires Path(f, from, w, to, n) && n > 0 && from.block < |f| && from.idx >= |f[from.block].insts|
    requires f[from.block].out == [a, b]
    ensures Crosses(f, a, w, to, n - 1) || Crosses(f, b, w, to, n - 1)
  {
    var e :| 0 <= e < |f[from.block].out| && Crosses(f, f[from.block].out[e], w, to, n - 1);
    assert e == 0 || e == 1;
  }

  /** A path cannot leave the end of a block without edges. */
  lemma StepNowhere(f: Graph, from: At, w: seq<Event>, to: At, n: nat)
    requires Path(f, from, w, to, n) && from.block < |f| && from.idx >= |f[from.block].insts| && f[from.block].out == []
    ensures n == 0 && w == [] && to == from
  {
  }

  /** The block that ends with an instruction and forks. */
  lemma FollowFork(t: Tok, f: Graph, current: nat, idx: nat, aside: nat, onwards: nat, away: Outcome, w: seq<Event>, to: At, n: nat)
    returns (s: Split)
    requires current < |f| && |f[current].insts| == idx + 1 && f[current].insts[idx] == t
    requires f[current].out == [(ConditionalTrue, aside), (ConditionalFalse, onwards)]
    requires Path(f, At(current, idx), w, to, n) && away in {Stopped, Broke, Continued}
    ensures s.i <= |w| && s.k <= n && s.o in {Normal, away, Cut}
    ensures (w[..s.i] == [] && s.o == Cut) || Forks(t, w[..s.i], s.o, away)
    ensures s.o == Normal ==> s.k == 2 && Path(f, At(onwards, 0), w[s.i..], to, n - s.k)
    ensures s.o == away ==> s.k == 2 && Path(f, At(aside, 0), w[s.i..], to, n - s.k)
    ensures s.o == Cut ==> s.i == |w| && CanGoOn(f, to)
  {
    if n == 0 {
      return Split(Cut, 0, 0);
    }
    StepInside(f, At(current, idx), t, w, to, n);
    var v := w[1..];
    if n == 1 {
      assert w[..1] == w;
      return Split(Cut, 1, 1);
    }
    StepEither(f, At(current, idx + 1), (ConditionalTrue, aside), (ConditionalFalse, onwards), v, to, n - 1);
    assert w[..2] == [Ex(t), v[0]] && w[2..] == v[1..];
    s := Split(if v[0] == Take(WhenTrue) then away else Normal, 2, 2);
  }

  /** Placed simple statements in the finished graph. */
  lemma FollowSimple(t: Tok, f: Graph, g: Graph, current: nat, header: nat, brk: nat, w: seq<Event>, to: At, n: nat)
    returns (s: Split)
    requires current < |g| && g[current].out == [] && !IsMarker(t)
    requires Final(f, |g|, current, PlaceSimple(t, g, current, header), brk)
    requires Path(f, At(current, |g[current].insts|), w, to, n)
    ensures s.i <= |w| && SimpleRuns(t, w[..s.i], s.o)
    ensures Arrives(f, s, w, to, n, EndOf(PlaceSimple(t, g, current, header)), brk, header)
    ensures Halts(f, s.o, to, PlaceSimple(t, g, current, header).current)
  {
    var idx := |g[current].insts|;
    if t.effect == Label {
      s := FollowLabel(t, f, g, current, header, brk, w, to, n);
    } else if t.effect in {ConditionalReturn, ConditionalBreak, ConditionalContinue} {
      s := FollowForks(t, f, g, current, header, brk, w, to, n);
    } else if n == 0 {
      StraightBlock(t, f, g, current, header, brk);
      s := Split(Cut, 0, 0);
    } else {
      s := FollowStraight(t, f, g, current, header, brk, w, to, n);
    }
  }

  /** A label starts a block of its own. */
  lemma LabelBlocks(t: Tok, f: Graph, g: Graph, current: nat, header: nat, brk: nat)
    requires current < |g| && g[current].out == [] && t.effect == Label
    requires Final(f, |g|, current, PlaceSimple(t, g, current, header), brk)
    ensures var p := PlaceSimple(t, g, current, header);
            && current < |f| && f[current] == Node(g[current].insts, [(EdgeKind.Fallthrough, |g|)])
            && |g| < |f| && f[|g|].insts != [] && f[|g|].insts[0] == t && p.current < |p.g| && EndOf(p) == At(|g|, 1)
  {
    var p := PlaceSimple(t, g, current, header);
    assert p.g[current] == Node(g[current].insts, [(EdgeKind.Fallthrough, |g|)]) && p.g[|g|] == Node([t], []);
  }

  lemma FollowLabel(t: Tok, f: Graph, g: Graph, current: nat, header: nat, brk: nat, w: seq<Event>, to: At, n: nat)
    returns (s: Split)
    requires current < |g| && g[current].out == [] && t.effect == Label
    requires Final(f, |g|, current, PlaceSimple(t, g, current, header), brk)
    requires Path(f, At(current, |g[current].insts|), w, to, n)
    ensures s.i <= |w| && SimpleRuns(t, w[..s.i], s.o)
    ensures Arrives(f, s, w, to, n, EndOf(PlaceSimple(t, g, current, header)), brk, header)
    ensures Halts(f, s.o, to, PlaceSimple(t, g, current, header).current)
  {
    hide PlaceSimple, Final;
    LabelBlocks(t, f, g, current, header, brk);
    if n == 0 {
      return Split(Cut, 0, 0);
    }
    StepAcross(f, At(current, |g[current].insts|), EdgeKind.Fallthrough, |g|, w, to, n);
    if n == 1 {
      return Split(Cut, 0, 1);
    }
    StepInside(f, At(|g|, 0), t, w, to, n - 1);
    s := Split(Normal, 1, 2);
  }

  lemma FollowForks(t: Tok, f: Graph, g: Graph, current: nat, header: nat, brk: nat, w: seq<Event>, to: At, n: nat)
    returns (s: Split)
    requires current < |g| && g[current].out == [] && t.effect in {ConditionalReturn, ConditionalBreak, ConditionalContinue}
    requires Final(f, |g|, current, PlaceSimple(t, g, current, header), brk)
    requires Path(f, At(current, |g[current].insts|), w, to, n)
    ensures s.i <= |w| && SimpleRuns(t, w[..s.i], s.o)
    ensures Arrives(f, s, w, to, n, EndOf(PlaceSimple(t, g, current, header)), brk, header)
    ensures Halts(f, s.o, to, PlaceSimple(t, g, current, header).current)
  {
    hide Final, PlaceSimple, Forks, SimpleRuns, Path, Arrives;
    var away, idx := AwayOf(t), |g[current].insts|;
    var aside, onwards := if away == Continued then header else |g|, if away == Continued then |g| else |g| + 1;
    ForkBlocks(t, f, g, current, header, brk);
    var b := FollowFork(t, f, current, idx, aside, onwards, away, w, to, n);
    ForkRuns(t, w[..b.i], b.o);
    s := ForkLeaves(f, b, w, to, n, onwards, aside, away, brk, header);
  }

  /** A fork as a simple statement, and the same cut short. */
  lemma ForkRuns(t: Tok, u: seq<Event>, o: Outcome)
    requires t.effect in {ConditionalReturn, ConditionalBreak, ConditionalContinue}
    requires (u == [] && o == Cut) || Forks(t, u, o, AwayOf(t))
    ensures SimpleRuns(t, u, o) && (o == Broke ==> SimpleRuns(t, u, Cut))
  {
  }

  /** The block made for the way out leads nowhere, or to the end of the region around. */
  lemma ForkLeaves(f: Graph, b: Split, w: seq<Event>, to: At, n: nat, onwards: nat, aside: nat, away: Outcome, brk: nat, header: nat)
    returns (s: Split)
    requires b.i <= |w| && b.k <= n && b.o in {Normal, away, Cut} && away in {Stopped, Broke, Continued}
    requires b.o == Normal ==> b.k == 2 && Path(f, At(onwards, 0), w[b.i..], to, n - b.k)
    requires b.o == away ==> b.k == 2 && Path(f, At(aside, 0), w[b.i..], to, n - b.k)
    requires b.o == Cut ==> b.i == |w| && CanGoOn(f, to)
    requires away == Stopped ==> aside < onwards
    requires if away == Continued then aside == header
             else aside < |f| && f[aside] == Node([], if away == Stopped then [] else [(Unconditional, brk)])
    ensures s.i == b.i && (s.o == b.o || (s.o == Cut && b.o == Broke)) && Arrives(f, s, w, to, n, At(onwards, 0), brk, header)
    ensures Halts(f, s.o, to, onwards)
  {
    s := b;
    if b.o == Stopped {
      StepNowhere(f, At(aside, 0), w[b.i..], to, n - b.k);
    } else if b.o == Broke {
      if n == b.k {
        s := Split(Cut, b.i, b.k);
      } else {
        StepAcross(f, At(aside, 0), Unconditional, brk, w[b.i..], to, n - b.k);
        s := Split(Broke, b.i, b.k + 1);
      }
    }
  }

  /** What a conditional exit does when its condition holds. */
  function AwayOf(t: Tok): Outcome {
    match t.effect case ConditionalReturn => Stopped case ConditionalBreak => Broke case _ => Continued
  }

  /** The block that holds a conditional exit and the blocks made for it, in the finished graph. */
  lemma ForkBlocks(t: Tok, f: Graph, g: Graph, current: nat, header: nat, brk: nat)
    requires current < |g| && g[current].out == [] && t.effect in {ConditionalReturn, ConditionalBreak, ConditionalContinue}
    requires Final(f, |g|, current, PlaceSimple(t, g, current, header), brk)
    ensures var p, away, idx := PlaceSimple(t, g, current, header), AwayOf(t), |g[current].insts|;
            var aside, onwards := if away == Continued then header else |g|, if away == Continued then |g| else |g| + 1;
            && current < |f| && f[current] == Node(g[current].insts + [t], [(ConditionalTrue, aside), (ConditionalFalse, onwards)])
            && p.current < |p.g| && EndOf(p) == At(onwards, 0) && |g| < |f|
            && (away == Stopped ==> f[|g|] == Node([], [])) && (away == Broke ==> f[|g|] == Node([], [(Unconditional, brk)]))
  {
    var p, away := PlaceSimple(t, g, current, header), AwayOf(t);
    var aside, onwards := if away == Continued then header else |g|, if away == Continued then |g| else |g| + 1;
    assert p.g[current] == Node(g[current].insts + [t], [(ConditionalTrue, aside), (ConditionalFalse, onwards)]);
  }

  lemma FollowStraight(t: Tok, f: Graph, g: Graph, current: nat, header: nat, brk: nat, w: seq<Event>, to: At, n: nat)
    returns (s: Split)
    requires current < |g| && g[current].out == [] && !IsMarker(t) && n > 0
    requires t.effect !in {Label, ConditionalReturn, ConditionalBreak, ConditionalContinue}
    requires Final(f, |g|, current, PlaceSimple(t, g, current, header), brk)
    requires Path(f, At(current, |g[current].insts|), w, to, n)
    ensures s.i <= |w| && SimpleRuns(t, w[..s.i], s.o)
    ensures Arrives(f, s, w, to, n, EndOf(PlaceSimple(t, g, current, header)), brk, header)
    ensures Halts(f, s.o, to, PlaceSimple(t, g, current, header).current)
  {
    hide Final, PlaceSimple;
    var idx := |g[current].insts|;
    StraightBlock(t, f, g, current, header, brk);
    StepInside(f, At(current, idx), t, w, to, n);
    if IsPlain(t) {
      return Split(Normal, 1, 1);
    }
    if IsExit(t) {
      StepNowhere(f, At(current, idx + 1), w[1..], to, n - 1);
      assert w[..1] == w;
      return Split(Stopped, 1, 1);
    }
    s := FollowThrough(t, f, current, idx, |g|, header, brk, w, to, n);
  }

  /** A break, a continue or a conditional jump, and the edge behind it. */
  lemma FollowThrough(t: Tok, f: Graph, current: nat, idx: nat, next: nat, header: nat, brk: nat, w: seq<Event>, to: At, n: nat)
    returns (s: Split)
    requires t.effect in {Break, Continue, ConditionalJump} && current < |f| && |f[current].insts| == idx + 1 && n > 0
    requires f[current].out == (if t.effect == Break then [(Unconditional, brk)]
                                else if t.effect == Continue then [(Back, header)] else [(ConditionalFalse, next)])
    requires w != [] && w[0] == Ex(t) && w[..1] == [Ex(t)] && Path(f, At(current, idx + 1), w[1..], to, n - 1)
    ensures s.i <= |w| && SimpleRuns(t, w[..s.i], s.o) && Arrives(f, s, w, to, n, At(next, 0), brk, header)
    ensures Halts(f, s.o, to, 0)
  {
    if n == 1 {
      assert w[..1] == w;
      s := Split(Cut, 1, 1);
    } else if t.effect == Break {
      StepAcross(f, At(current, idx + 1), Unconditional, brk, w[1..], to, n - 1);
      s := Split(Broke, 1, 2);
    } else if t.effect == Continue {
      StepAcross(f, At(current, idx + 1), Back, header, w[1..], to, n - 1);
      s := Split(Continued, 1, 2);
    } else {
      StepAcross(f, At(current, idx + 1), ConditionalFalse, next, w[1..], to, n - 1);
      assert w[..2] == [Ex(t), Take(WhenFalse)] && w[2..] == w[1..][1..];
      s := Split(Normal, 2, 2);
    }
  }

  /** The block that holds the instruction, in the finished graph. */
  lemma StraightBlock(t: Tok, f: Graph, g: Graph, current: nat, header: nat, brk: nat)
    requires current < |g| && g[current].out == [] && !IsMarker(t)
    requires t.effect !in {Label, ConditionalReturn, ConditionalBreak, ConditionalContinue}
    requires Final(f, |g|, current, PlaceSimple(t, g, current, header), brk)
    ensures var p, idx := PlaceSimple(t, g, current, header), |g[current].insts|;
            && current < |f| && idx < |f[current].insts| && f[current].insts[idx] == t && p.current < |p.g|
            && if IsPlain(t) then EndOf(p) == At(current, idx + 1)
               else
                 && EndOf(p) == At(|g|, 0) && |f[current].insts| == idx + 1
                 && f[current].out == (if IsExit(t) then [] else if t.effect == Break then [(Unconditional, brk)]
                                       else if t.effect == Continue then [(Back, header)] else [(ConditionalFalse, |g|)])
  {
    var p := PlaceSimple(t, g, current, header);
    assert p.g[current].insts == g[current].insts + [t];
  }

  /** The end of an arm leads on to where `kind` points. */
  lemma JoinEnd(f: Graph, b: Split, w: seq<Event>, to: At, n: nat, end: At, kind: EdgeKind, next: nat, brk: nat, header: nat, bound: nat)
    returns (s: Split)
    requires Arrives(f, b, w, to, n, end, brk, header) && Halts(f, b.o, to, bound) && ChoiceOf(kind).None?
    requires end.block < |f| && end.idx == |f[end.block].insts| && f[end.block].out == [(kind, next)]
    ensures s.i == b.i && (s.o == b.o || (s.o == Cut && b.o == Normal))
    ensures Arrives(f, s, w, to, n, At(next, 0), brk, header) && (s.o == Normal ==> s.k > 0) && Halts(f, s.o, to, bound)
  {
    s := b;
    if b.o == Normal {
      if n - b.k == 0 {
        s := Split(Cut, b.i, b.k);
      } else {
        StepAcross(f, end, kind, next, w[b.i..], to, n - b.k);
        s := Split(Normal, b.i, b.k + 1);
      }
    }
  }

  /** An execution of a body, or the same cut short. */
  lemma BodyRuns(body: Code, u: seq<Event>, o: Outcome, s: Outcome)
    requires Runs(body, u, o) && (s == o || (s == Cut && o == Normal))
    ensures Runs(body, u, s)
  {
    if s != o {
      CutAnywhere(body, u, o);
    }
  }

  /** Every path from where code was placed is an execution of it, followed by whatever its outcome leads to. */
  lemma {:induction false} Follow(c: Code, f: Graph, g: Graph, current: nat, header: nat, brk: nat, inLoop: bool, breakable: bool,
                                  w: seq<Event>, to: At, n: nat)
    returns (s: Split)
    requires current < |g| && g[current].out == [] && Scoped(c, inLoop, breakable)
    requires Final(f, |g|, current, Place(c, g, current, header), brk) && Path(f, At(current, |g[current].insts|), w, to, n)
    ensures Place(c, g, current, header).current < |Place(c, g, current, header).g|
    ensures s.i <= |w| && Runs(c, w[..s.i], s.o)
    ensures Arrives(f, s, w, to, n, EndOf(Place(c, g, current, header)), brk, header)
    ensures Halts(f, s.o, to, Place(c, g, current, header).current)
    decreases n, c, 6
  {
    if c.Done? {
      s := Split(Normal, 0, 0);
    } else {
      var first := PlaceHead(c, g, current, header);
      SequenceParts(c, f, g, current, header, brk);
      s := FollowSequence(c, f, g, current, header, brk, inLoop, breakable, first, Place(c.next, first.g, first.current, header),
                          w, to, n);
    }
  }

  lemma {:induction false} FollowSequence(c: Code, f: Graph, g: Graph, current: nat, header: nat, brk: nat, inLoop: bool, breakable: bool,
                                          first: Placed, rest: Placed, w: seq<Event>, to: At, n: nat)
    returns (s: Split)
    requires !c.Done? && current < |g| && g[current].out == [] && Scoped(c, inLoop, breakable)
    requires first == PlaceHead(c, g, current, header) && first.current < |first.g| && first.g[first.current].out == []
    requires rest == Place(c.next, first.g, first.current, header) && first.current <= rest.current < |rest.g|
    requires Final(f, |g|, current, first, brk) && Final(f, |first.g|, first.current, rest, brk)
    requires Path(f, At(current, |g[current].insts|), w, to, n)
    ensures s.i <= |w| && Runs(c, w[..s.i], s.o) && Arrives(f, s, w, to, n, EndOf(rest), brk, header) && Halts(f, s.o, to, rest.current)
    decreases n, c, 5
  {
    hide Final, Place, PlaceHead, PlaceArms, Runs, Head, Path, Arrives;
    var h := FollowHead(c, f, g, current, header, brk, inLoop, breakable, w, to, n);
    if h.o != Normal {
      s := h;
      LeftEarly(c, f, h, w, to, n, EndOf(first), EndOf(rest), brk, header);
    } else {
      s := FollowRest(c, f, first, rest, header, brk, inLoop, breakable, h, w, to, n);
    }
  }

  lemma {:induction false} FollowRest(c: Code, f: Graph, first: Placed, rest: Placed, header: nat, brk: nat, inLoop: bool, breakable: bool,
                                      h: Split, w: seq<Event>, to: At, n: nat)
    returns (s: Split)
    requires !c.Done? && Scoped(c.next, inLoop, breakable) && first.current < |first.g| && first.g[first.current].out == []
    requires rest == Place(c.next, first.g, first.current, header) && rest.current < |rest.g|
    requires Final(f, |first.g|, first.current, rest, brk)
    requires h.o == Normal && h.i <= |w| && Head(c, w[..h.i], Normal) && Arrives(f, h, w, to, n, EndOf(first), brk, header)
    ensures s.i <= |w| && Runs(c, w[..s.i], s.o) && Arrives(f, s, w, to, n, EndOf(rest), brk, header) && Halts(f, s.o, to, rest.current)
    decreases n, c, 3
  {
    hide Final, Place, PlaceHead, PlaceArms, Runs, Head, Path, Scoped;
    var r := Follow(c.next, f, first.g, first.current, header, brk, inLoop, breakable, w[h.i..], to, n - h.k);
    SequenceRuns(c, w, h.i, r.i, r.o);
    s := ThenArrives(f, w, to, n, h.i, h.k, r, EndOf(rest), brk, header);
  }

  lemma LeftEarly(c: Code, f: Graph, h: Split, w: seq<Event>, to: At, n: nat, end: At, last: At, brk: nat, header: nat)
    requires !c.Done? && h.o != Normal && h.i <= |w| && Head(c, w[..h.i], h.o) && Arrives(f, h, w, to, n, end, brk, header)
    ensures Runs(c, w[..h.i], h.o) && Arrives(f, h, w, to, n, last, brk, header)
  {
  }

  /** A first statement and the rest, in the finished graph. */
  lemma SequenceParts(c: Code, f: Graph, g: Graph, current: nat, header: nat, brk: nat)
    requires !c.Done? && current < |g| && g[current].out == []
    requires Final(f, |g|, current, Place(c, g, current, header), brk)
    ensures var first := PlaceHead(c, g, current, header); var rest := Place(c.next, first.g, first.current, header);
            && first.current < |first.g| && first.g[first.current].out == [] && first.current <= rest.current < |rest.g|
            && Final(f, |g|, current, first, brk) && Final(f, |first.g|, first.current, rest, brk)
            && Place(c, g, current, header).g == rest.g && Place(c, g, current, header).current == rest.current
  {
    var first := PlaceHead(c, g, current, header);
    PlaceHeadFramed(c, g, current, header);
    assert (first.breaks + [first.current])[|first.breaks|] == first.current;
    var rest := Place(c.next, first.g, first.current, header);
    PlaceFramed(c.next, first.g, first.current, header);
    assert (rest.breaks + [rest.current])[|rest.breaks|] == rest.current;
    FinalSplit(f, g, current, first, rest, brk);
  }

  lemma ThenArrives(f: Graph, w: seq<Event>, to: At, n: nat, i: nat, k: nat, r: Split, normal: At, brk: nat, header: nat)
    returns (s: Split)
    requires i <= |w| && k <= n && Arrives(f, r, w[i..], to, n - k, normal, brk, header)
    ensures s == Split(r.o, i + r.i, k + r.k) && Arrives(f, s, w, to, n, normal, brk, header)
  {
    s := Split(r.o, i + r.i, k + r.k);
    assert w[i..][r.i..] == w[s.i..];
  }

  lemma Slices<T>(w: seq<T>, i: nat, j: nat)
    requires i + j <= |w|
    ensures w[..i + j][..i] == w[..i] && w[..i + j][i..] == w[i..][..j] && w[i..][j..] == w[i + j..]
  {
  }

  lemma SequenceRuns(c: Code, w: seq<Event>, i: nat, j: nat, o: Outcome)
    requires !c.Done? && i + j <= |w| && Head(c, w[..i], Normal) && Runs(c.next, w[i..][..j], o)
    ensures Runs(c, w[..i + j], o)
  {
    var u := w[..i + j];
    assert u[..i] == w[..i] && u[i..] == w[i..][..j];
  }

  /** A region starts with its opening instruction. */
  lemma HeadOpens(c: Code, f: Graph, g: Graph, current: nat, header: nat, brk: nat)
    requires !c.Done? && !c.Simple? && current < |g| && g[current].out == []
    requires Final(f, |g|, current, PlaceHead(c, g, current, header), brk)
    ensures CanGoOn(f, At(current, |g[current].insts|))
  {
    if c.Loop? {
      LoopParts(c, f, g, current, header, brk);
    } else {
      RegionOwn(f, c, g, current, header, brk);
    }
  }

  lemma {:induction false} FollowHead(c: Code, f: Graph, g: Graph, current: nat, header: nat, brk: nat, inLoop: bool, breakable: bool,
                                      w: seq<Event>, to: At, n: nat)
    returns (s: Split)
    requires !c.Done? && current < |g| && g[current].out == [] && Scoped(c, inLoop, breakable)
    requires Final(f, |g|, current, PlaceHead(c, g, current, header), brk) && Path(f, At(current, |g[current].insts|), w, to, n)
    ensures PlaceHead(c, g, current, header).current < |PlaceHead(c, g, current, header).g|
    ensures s.i <= |w| && Head(c, w[..s.i], s.o)
    ensures Arrives(f, s, w, to, n, EndOf(PlaceHead(c, g, current, header)), brk, header)
    ensures Halts(f, s.o, to, PlaceHead(c, g, current, header).current)
    decreases n, c, 4
  {
    hide Final, Place, PlaceArms, Runs;
    PlaceHeadFramed(c, g, current, header);
    if c.Simple? {
      s := FollowSimple(c.tok, f, g, current, header, brk, w, to, n);
    } else if n == 0 {
      HeadOpens(c, f, g, current, header, brk);
      s := Split(Cut, 0, 0);
    } else if c.Loop? {
      s := FollowLoop(c, f, g, current, header, brk, inLoop, breakable, w, to, n);
    } else {
      s := FollowRegion(c, f, g, current, header, brk, inLoop, breakable, w, to, n);
    }
  }

  lemma {:induction false} FollowLoop(c: Code, f: Graph, g: Graph, current: nat, header: nat, brk: nat, inLoop: bool, breakable: bool,
                                      w: seq<Event>, to: At, n: nat)
    returns (s: Split)
    requires c.Loop? && n > 0 && current < |g| && g[current].out == [] && Scoped(c, inLoop, breakable)
    requires Final(f, |g|, current, PlaceHead(c, g, current, header), brk) && Path(f, At(current, |g[current].insts|), w, to, n)
    requires PlaceHead(c, g, current, header).current < |PlaceHead(c, g, current, header).g|
    ensures s.i <= |w| && Head(c, w[..s.i], s.o)
    ensures Arrives(f, s, w, to, n, EndOf(PlaceHead(c, g, current, header)), brk, header)
    ensures Halts(f, s.o, to, PlaceHead(c, g, current, header).current)
    decreases n, c, 3
  {
    hide Final, Place, PlaceHead, PlaceArms, Runs, Head, Loops;
    var fork := Opened(g, current, c.open, EdgeKind.Fallthrough);
    var body := Place(c.body, fork, |g|, |g|);
    LoopParts(c, f, g, current, header, brk);
    StepInside(f, At(current, |g[current].insts|), c.open, w, to, n);
    if n == 1 {
      OpenIsHead(c, w);
      return Split(Cut, 1, 1);
    }
    StepAcross(f, At(current, |g[current].insts| + 1), EdgeKind.Fallthrough, |g|, w[1..], to, n - 1);
    var t, turns := FollowTurns(c.body, f, fork, |g|, body, |body.g|, w[1..], to, n - 2);
    TurnsAreHead(c, w, t.i, turns, t.o);
    s := LoopLeft(f, t, w, to, n, |body.g|, brk, header);
  }

  lemma LoopLeft(f: Graph, t: Split, w: seq<Event>, to: At, n: nat, post: nat, brk: nat, header: nat) returns (s: Split)
    requires n >= 2 && |w| >= 1 && Turned(f, t, w[1..], to, n - 2, post)
    ensures s == Split(t.o, 1 + t.i, 2 + t.k) && Arrives(f, s, w, to, n, At(post, 0), brk, header)
  {
    s := Split(t.o, 1 + t.i, 2 + t.k);
    assert w[1..][t.i..] == w[s.i..];
  }

  /** A closed loop and its parts, in the finished graph. */
  lemma LoopParts(c: Code, f: Graph, g: Graph, current: nat, header: nat, brk: nat)
    requires c.Loop? && current < |g| && g[current].out == [] && Final(f, |g|, current, PlaceHead(c, g, current, header), brk)
    ensures var fork := Opened(g, current, c.open, EdgeKind.Fallthrough);
            var body, p := Place(c.body, fork, |g|, |g|), PlaceHead(c, g, current, header);
            && |g| < |fork| && fork[|g|] == Node([], []) && body.current < |body.g| <= |f|
            && current < |f| && f[current] == Node(g[current].insts + [c.open], [(EdgeKind.Fallthrough, |g|)])
            && f[body.current] == Node(body.g[body.current].insts, [(Back, |g|)]) && Final(f, |fork|, |g|, body, |body.g|)
            && p.current == |body.g| < |p.g| && p.g[p.current].insts == []
  {
    var fork := Opened(g, current, c.open, EdgeKind.Fallthrough);
    FinalLoop(f, c, g, current, header, brk);
    PlaceFramed(c.body, fork, |g|, |g|);
    LoopFacts(g, current, c.open, Place(c.body, fork, |g|, |g|));
  }

  /** The turns end the path, or lead behind the loop. */
  ghost predicate Turned(f: Graph, s: Split, w: seq<Event>, to: At, n: nat, post: nat) {
    && s.i <= |w| && s.k <= n && s.o in {Normal, Stopped, Cut}
    && if s.o == Normal then Path(f, At(post, 0), w[s.i..], to, n - s.k) else s.i == |w|
  }

  /** The opening instruction alone, cut there. */
  lemma OpenIsHead(c: Code, w: seq<Event>)
    requires (c.If? || c.Switch? || c.Loop?) && w == [Ex(c.open)]
    ensures w[..1] == w && Head(c, w, Cut)
  {
    assert w[1..] == [];
    if c.Loop? {
      CutAtStart(c.body);
      assert Loops(c.body, 0, [], Cut);
    }
  }

  lemma TurnsAreHead(c: Code, w: seq<Event>, i: nat, turns: nat, o: Outcome)
    requires c.Loop? && 1 + i <= |w| && w[0] == Ex(c.open) && Loops(c.body, turns, w[1..][..i], o)
    ensures Head(c, w[..1 + i], o)
  {
    var u := w[..1 + i];
    assert u[1..] == w[1..][..i];
  }

  /** Turn after turn from the header, until one leaves the loop or the path ends. */
  lemma {:induction false} FollowTurns(c: Code, f: Graph, fork: Graph, header: nat, body: Placed, post: nat, w: seq<Event>, to: At, n: nat)
    returns (s: Split, turns: nat)
    requires header < |fork| && fork[header] == Node([], []) && Scoped(c, true, true) && body == Place(c, fork, header, header)
    requires body.current < |body.g| <= |f| && f[body.current] == Node(body.g[body.current].insts, [(Back, header)])
    requires Final(f, |fork|, header, body, post) && Path(f, At(header, 0), w, to, n)
    ensures Turned(f, s, w, to, n, post) && Loops(c, turns, w[..s.i], s.o) && Halts(f, s.o, to, body.current)
    decreases n, c, 7
  {
    hide Final, Place, PlaceHead, PlaceArms, Runs, Head, Path, Scoped;
    var b := Follow(c, f, fork, header, header, post, true, true, w, to, n);
    var e := JoinEnd(f, b, w, to, n, EndOf(body), Back, header, post, header, body.current);
    BodyRuns(c, w[..b.i], b.o, e.o);
    if e.o in {Normal, Continued} {
      var r, more := FollowTurns(c, f, fork, header, body, post, w[e.i..], to, n - e.k);
      s, turns := Split(r.o, e.i + r.i, e.k + r.k), more + 1;
      Slices(w, e.i, r.i);
      BodyRuns(c, w[..b.i], b.o, b.o);
    } else {
      s, turns := Split(if e.o == Broke then Normal else e.o, e.i, e.k), 0;
    }
  }

  /** The first blocks of a region's arms. */
  function ArmStarts(c: Code, g: Graph, current: nat, header: nat): seq<nat>
    requires c.If? || c.Switch?
  {
    Starts(c.arms, BodyOf(c, g, current, header).g, current, ArmKind(c), header)
  }

  /** The edges out of the block a region opens in. */
  lemma RegionEdgeAt(c: Code, g: Graph, current: nat, header: nat, e: nat)
    requires (c.If? || c.Switch?) && e < |RegionEdges(c, g, current, header)|
    ensures var starts := ArmStarts(c, g, current, header);
            var edge := RegionEdges(c, g, current, header)[e];
            if e == 0 then edge == (FirstKind(c), |g|)
            else if e <= |starts| then edge == (ArmKind(c), starts[e - 1])
            else c.If? && c.arms.NoArm? && edge == (ConditionalFalse, RegionMerge(c, g, current, header))
  {
  }

  function FirstChoice(c: Code): Choice { if c.If? then WhenTrue else Case }

  function ArmChoice(c: Code): Choice { if c.If? then WhenFalse else Case }

  /** What the outcome of an arm is for the region. */
  function RegionOutcome(c: Code, o: Outcome): Outcome { if c.Switch? && o == Broke then Normal else o }

  /** An execution of the body, or of an arm, is one of the region. */
  lemma BodyIsHead(c: Code, w: seq<Event>, i: nat, o: Outcome)
    requires (c.If? || c.Switch?) && 2 + i <= |w| && w[0] == Ex(c.open) && w[1] == Take(FirstChoice(c)) && Runs(c.body, w[2..][..i], o)
    ensures Head(c, w[..2 + i], RegionOutcome(c, o))
  {
    var u := w[..2 + i];
    var v := u[1..];
    assert v[1..] == w[2..][..i] && v[0] == w[1] && u[0] == w[0];
    if c.Switch? {
      assert RunsCase(c, v, o);
    }
  }

  lemma ArmIsHead(c: Code, w: seq<Event>, i: nat, o: Outcome)
    requires (c.If? || c.Switch?) && 2 + i <= |w| && w[0] == Ex(c.open) && w[1] == Take(ArmChoice(c))
    requires RunsArm(c.arms, ArmChoice(c), [Take(ArmChoice(c))] + w[2..][..i], o)
    ensures Head(c, w[..2 + i], RegionOutcome(c, o))
  {
    var u := w[..2 + i];
    var v := u[1..];
    assert v == [Take(ArmChoice(c))] + w[2..][..i] && u[0] == w[0];
    if c.Switch? {
      assert RunsCase(c, v, o);
    }
  }

  lemma SkipIsHead(c: Code, w: seq<Event>)
    requires c.If? && c.arms.NoArm? && |w| >= 2 && w[0] == Ex(c.open) && w[1] == Take(WhenFalse)
    ensures Head(c, w[..2], Normal)
  {
    assert w[..2][1..] == [Take(WhenFalse)];
  }

  /** The first step from the end of a block. */
  lemma StepOut(f: Graph, from: At, w: seq<Event>, to: At, n: nat) returns (e: nat)
    requires Path(f, from, w, to, n) && n > 0 && from.block < |f| && from.idx >= |f[from.block].insts|
    ensures e < |f[from.block].out| && Crosses(f, f[from.block].out[e], w, to, n - 1)
  {
    e :| 0 <= e < |f[from.block].out| && Crosses(f, f[from.block].out[e], w, to, n - 1);
  }

  lemma {:induction false} FollowRegion(c: Code, f: Graph, g: Graph, current: nat, header: nat, brk: nat, inLoop: bool, breakable: bool,
                                        w: seq<Event>, to: At, n: nat)
    returns (s: Split)
    requires (c.If? || c.Switch?) && n > 0 && current < |g| && g[current].out == [] && Scoped(c, inLoop, breakable)
    requires Final(f, |g|, current, PlaceHead(c, g, current, header), brk) && Path(f, At(current, |g[current].insts|), w, to, n)
    requires PlaceHead(c, g, current, header).current < |PlaceHead(c, g, current, header).g|
    ensures s.i <= |w| && Head(c, w[..s.i], s.o)
    ensures Arrives(f, s, w, to, n, EndOf(PlaceHead(c, g, current, header)), brk, header)
    ensures Halts(f, s.o, to, PlaceHead(c, g, current, header).current)
    decreases n, c, 3
  {
    hide Final, Place, PlaceHead, PlaceArms, Runs, Head, Scoped;
    RegionOwn(f, c, g, current, header, brk);
    MergeEmpty(c, g, current, header);
    StepInside(f, At(current, |g[current].insts|), c.open, w, to, n);
    if n == 1 {
      OpenIsHead(c, w);
      return Split(Cut, 1, 1);
    }
    var e := StepOut(f, At(current, |g[current].insts| + 1), w[1..], to, n - 1);
    EdgeTaken(c, f, g, current, header, e, w, to, n);
    s := FollowEdge(c, f, g, current, header, brk, inLoop, breakable, e, w, to, n);
  }

  /** The body of a region, one of its arms, or neither. */
  lemma {:induction false} FollowEdge(c: Code, f: Graph, g: Graph, current: nat, header: nat, brk: nat, inLoop: bool, breakable: bool,
                                      e: nat, w: seq<Event>, to: At, n: nat)
    returns (s: Split)
    requires (c.If? || c.Switch?) && n > 1 && current < |g| && g[current].out == [] && Scoped(c, inLoop, breakable)
    requires Final(f, |g|, current, PlaceHead(c, g, current, header), brk) && w != [] && w[0] == Ex(c.open)
    requires Took(c, f, ArmStarts(c, g, current, header), |g|, RegionMerge(c, g, current, header), e, w, to, n)
    ensures s.i <= |w| && Head(c, w[..s.i], s.o)
    ensures Arrives(f, s, w, to, n, At(RegionMerge(c, g, current, header), 0), brk, header)
    ensures Halts(f, s.o, to, RegionMerge(c, g, current, header))
    decreases n, c, 2
  {
    hide Final, Place, PlaceHead, PlaceArms, Runs, Head, RunsArm, RunsCase, Path, Scoped;
    var merge, starts := RegionMerge(c, g, current, header), ArmStarts(c, g, current, header);
    if e == 0 {
      var b := FollowBody(c, f, g, current, header, brk, inLoop, breakable, w[2..], to, n - 2);
      BodyIsHead(c, w, b.i, b.o);
      s := RegionLeft(c, f, b, w, to, n, merge, brk, header);
    } else if e <= |starts| {
      var b := FollowArmOf(c, f, g, current, header, brk, inLoop, breakable, e - 1, w[2..], to, n - 2);
      s := RegionLeft(c, f, b, w, to, n, merge, brk, header);
      ArmIsHead(c, w, b.i, b.o);
    } else {
      SkipIsHead(c, w);
      s := Split(Normal, 2, 2);
    }
  }

  /** Edge `e` of a region: into its body, into an arm, or past both. */
  ghost predicate Took(c: Code, f: Graph, starts: seq<nat>, first: nat, merge: nat, e: nat, w: seq<Event>, to: At, n: nat)
    requires c.If? || c.Switch?
  {
    && n > 1 && |w| >= 2
    && if e == 0 then w[1] == Take(FirstChoice(c)) && Path(f, At(first, 0), w[2..], to, n - 2)
       else if e <= |starts| then w[1] == Take(ArmChoice(c)) && Path(f, At(starts[e - 1], 0), w[2..], to, n - 2)
       else c.If? && c.arms.NoArm? && w[1] == Take(WhenFalse) && Path(f, At(merge, 0), w[2..], to, n - 2)
  }

  lemma EdgeTaken(c: Code, f: Graph, g: Graph, current: nat, header: nat, e: nat, w: seq<Event>, to: At, n: nat)
    requires (c.If? || c.Switch?) && n > 1 && w != []
    requires e < |RegionEdges(c, g, current, header)| && Crosses(f, RegionEdges(c, g, current, header)[e], w[1..], to, n - 2)
    ensures Took(c, f, ArmStarts(c, g, current, header), |g|, RegionMerge(c, g, current, header), e, w, to, n)
  {
    RegionEdgeAt(c, g, current, header, e);
    assert w[1..][1..] == w[2..];
  }

  lemma {:induction false} FollowArmOf(c: Code, f: Graph, g: Graph, current: nat, header: nat, brk: nat, inLoop: bool, breakable: bool,
                                       j: nat, w: seq<Event>, to: At, n: nat)
    returns (s: Split)
    requires (c.If? || c.Switch?) && current < |g| && g[current].out == [] && Scoped(c, inLoop, breakable)
    requires Final(f, |g|, current, PlaceHead(c, g, current, header), brk)
    requires j < |ArmStarts(c, g, current, header)| && Path(f, At(ArmStarts(c, g, current, header)[j], 0), w, to, n)
    ensures s.i <= |w| && RunsArm(c.arms, ArmChoice(c), [Take(ArmChoice(c))] + w[..s.i], s.o)
    ensures Arrives(f, s, w, to, n, At(RegionMerge(c, g, current, header), 0),
                    if c.If? then brk else RegionMerge(c, g, current, header), header)
    ensures Halts(f, s.o, to, RegionMerge(c, g, current, header))
    decreases n, c, 1
  {
    hide Final, FinalArms, Place, PlaceHead, PlaceArms, Runs, RunsArm, Head, Path, Arrives;
    var merge, body := RegionMerge(c, g, current, header), BodyOf(c, g, current, header);
    FinalRegion(f, c, g, current, header, brk);
    FramesForArms(c, g, current, header);
    s := FollowArm(c.arms, f, body.g, current, ArmKind(c), body.current, header, if c.If? then brk else merge, merge,
                   inLoop, breakable || c.Switch?, j, w, to, n);
  }

  /** Leaving the region: a break inside a switch completes it. */
  lemma RegionLeft(c: Code, f: Graph, b: Split, w: seq<Event>, to: At, n: nat, merge: nat, brk: nat, header: nat) returns (s: Split)
    requires (c.If? || c.Switch?) && n >= 2 && |w| >= 2
    requires Arrives(f, b, w[2..], to, n - 2, At(merge, 0), if c.If? then brk else merge, header)
    ensures s == Split(RegionOutcome(c, b.o), 2 + b.i, 2 + b.k) && Arrives(f, s, w, to, n, At(merge, 0), brk, header)
  {
    s := Split(RegionOutcome(c, b.o), 2 + b.i, 2 + b.k);
    assert w[2..][b.i..] == w[s.i..];
  }

  lemma MergeEmpty(c: Code, g: Graph, current: nat, header: nat)
    requires (c.If? || c.Switch?) && current < |g| && g[current].out == []
    ensures var p := PlaceHead(c, g, current, header);
            p.current == RegionMerge(c, g, current, header) < |p.g| && p.g[p.current].insts == []
  {
    RegionPlaced(c, g, current, header);
    if c.If? {
      IfMerge(g, current, c.open, BodyOf(c, g, current, header), ArmsOf(c, g, current, header), ArmStarts(c, g, current, header), c.arms.Arm?);
    } else {
      SwitchFacts(g, current, c.open, BodyOf(c, g, current, header), ArmsOf(c, g, current, header), ArmStarts(c, g, current, header));
    }
  }

  lemma IfMerge(g: Graph, current: nat, open: Tok, body: Placed, arms: PlacedArms, starts: seq<nat>, alternate: bool)
    requires current < |g| && g[current].out == []
    requires Framed(Opened(g, current, open, ConditionalTrue), |g|, body)
    requires FramedArms(body.g, current, body.current, arms, ConditionalFalse, starts)
    ensures |IfGraph(arms, current, alternate)| == |arms.g| + 1 && IfGraph(arms, current, alternate)[|arms.g|].insts == []
  {
    RegionFramed(g, current, open, ConditionalTrue, body, arms, ConditionalFalse, starts);
    SplitEnds(|g|, arms, body.breaks);
    MergedFacts(arms.g, Joined(arms));
  }

  lemma FramesForArms(c: Code, g: Graph, current: nat, header: nat)
    requires (c.If? || c.Switch?) && current < |g| && g[current].out == []
    ensures var body := BodyOf(c, g, current, header);
            && current < |body.g| && body.current < |body.g| && current != body.current && body.g[body.current].out == []
  {
    RegionPlaced(c, g, current, header);
    var body := BodyOf(c, g, current, header);
    assert (body.breaks + [body.current])[|body.breaks|] == body.current;
  }

  /** The body of a region, up to where it joins the arms. */
  lemma {:induction false} FollowBody(c: Code, f: Graph, g: Graph, current: nat, header: nat, brk: nat, inLoop: bool, breakable: bool,
                                      w: seq<Event>, to: At, n: nat)
    returns (s: Split)
    requires (c.If? || c.Switch?) && current < |g| && g[current].out == [] && Scoped(c, inLoop, breakable)
    requires Final(f, |g|, current, PlaceHead(c, g, current, header), brk) && Path(f, At(|g|, 0), w, to, n)
    ensures s.i <= |w| && Runs(c.body, w[..s.i], s.o)
    ensures Arrives(f, s, w, to, n, At(RegionMerge(c, g, current, header), 0),
                    if c.If? then brk else RegionMerge(c, g, current, header), header)
    ensures Halts(f, s.o, to, RegionMerge(c, g, current, header))
    decreases n, c, 1
  {
    hide Final, Place, PlaceHead, PlaceArms, Runs, Head, Path, Arrives, Opened;
    var merge := RegionMerge(c, g, current, header);
    var inner := if c.If? then brk else merge;
    var fork := Opened(g, current, c.open, FirstKind(c));
    var body := BodyOf(c, g, current, header);
    BodyParts(c, f, g, current, header, brk);
    var b := Follow(c.body, f, fork, |g|, header, inner, inLoop, breakable || c.Switch?, w, to, n);
    s := JoinEnd(f, b, w, to, n, EndOf(body), EdgeKind.Fallthrough, merge, inner, header, merge);
    BodyRuns(c.body, w[..b.i], b.o, s.o);
  }

  /** The body of a region, in the finished graph. */
  lemma BodyParts(c: Code, f: Graph, g: Graph, current: nat, header: nat, brk: nat)
    requires (c.If? || c.Switch?) && current < |g| && g[current].out == []
    requires Final(f, |g|, current, PlaceHead(c, g, current, header), brk)
    ensures var fork, body := Opened(g, current, c.open, FirstKind(c)), BodyOf(c, g, current, header);
            var merge := RegionMerge(c, g, current, header);
            && |g| < |fork| && fork[|g|] == Node([], []) && body.current < |body.g| <= |f| && body.current < merge
            && f[body.current] == Node(body.g[body.current].insts, [(EdgeKind.Fallthrough, merge)])
            && Final(f, |fork|, |g|, body, if c.If? then brk else merge)
  {
    var body, arms := BodyOf(c, g, current, header), ArmsOf(c, g, current, header);
    FinalRegion(f, c, g, current, header, brk);
    RegionPlaced(c, g, current, header);
    FirstEnd(c.arms, body.g, current, ArmKind(c), body.current, header);
    FramesForArms(c, g, current, header);
    assert arms.g[body.current] == body.g[body.current];
  }

  /** The first arm and those after it, in the finished graph. */
  lemma ArmParts(a: Arms, f: Graph, g: Graph, pre: nat, kind: EdgeKind, current: nat, header: nat, brk: nat, merge: nat)
    requires a.Arm? && pre < |g| && current < |g| && pre != current && g[current].out == []
    requires FinalArms(f, |g|, current, PlaceArms(a, g, pre, kind, current, header), brk, merge)
    ensures var fork := AddEdge(NewBlock(g, [a.lead]), pre, kind, |g|);
            var body := Place(a.body, fork, |g|, header);
            var rest := PlaceArms(a.rest, body.g, pre, kind, body.current, header);
            && |g| < |fork| && fork[|g|] == Node([a.lead], []) && |g| < |f| && f[|g|].insts != [] && f[|g|].insts[0] == a.lead
            && pre < |body.g| && body.current < |body.g| <= |f| && pre != body.current && body.g[body.current].out == []
            && f[body.current] == Node(body.g[body.current].insts, [(EdgeKind.Fallthrough, merge)]) && |body.g| <= |rest.g|
            && Final(f, |fork|, |g|, body, brk) && FinalArms(f, |body.g|, body.current, rest, brk, merge)
  {
    hide Place, PlaceHead, Starts, Path, Final, FinalArms, Framed, FramedArms;
    var fork := AddEdge(NewBlock(g, [a.lead]), pre, kind, |g|);
    var body := Place(a.body, fork, |g|, header);
    PlaceFramed(a.body, fork, |g|, header);
    FramedEnd(fork, |g|, body);
    PlaceArmsFramed(a.rest, body.g, pre, kind, body.current, header);
    var rest := PlaceArms(a.rest, body.g, pre, kind, body.current, header);
    FirstEnd(a.rest, body.g, pre, kind, body.current, header);
    FinalArmSplit(f, g, pre, kind, current, a.lead, body, rest, Starts(a.rest, body.g, pre, kind, header), brk, merge);
    ArmEnds(f, fork, |g|, body, pre, kind, rest, Starts(a.rest, body.g, pre, kind, header), brk, merge);
  }

  lemma FramedEnd(g: Graph, current: nat, p: Placed)
    requires Framed(g, current, p)
    ensures current < |g| <= |p.g| && p.current < |p.g| && p.g[p.current].out == [] && Own(|g|, current, p.current)
  {
    assert (p.breaks + [p.current])[|p.breaks|] == p.current;
  }

  /** Where an arm begins and where it joins the others, in the finished graph. */
  lemma ArmEnds(f: Graph, fork: Graph, start: nat, body: Placed, pre: nat, kind: EdgeKind, rest: PlacedArms, starts: seq<nat>,
                brk: nat, merge: nat)
    requires Framed(fork, start, body) && FramedArms(body.g, pre, body.current, rest, kind, starts)
    requires pre != body.current && pre < |body.g| && body.g[body.current].out == []
    requires start < |fork| && fork[start].insts != [] && body.current in Joined(rest)
    requires Final(f, |fork|, start, body, brk) && FinalArms(f, |body.g|, body.current, rest, brk, merge)
    ensures start < |f| && f[start].insts != [] && f[start].insts[0] == fork[start].insts[0] && |body.g| <= |f|
    ensures f[body.current] == Node(body.g[body.current].insts, [(EdgeKind.Fallthrough, merge)])
  {
    assert fork[start].insts <= body.g[start].insts <= f[start].insts;
    assert rest.g[body.current] == body.g[body.current];
  }

  /** Arm `j`, entered by its edge, up to where it joins the others. */
  lemma {:induction false} FollowArm(a: Arms, f: Graph, g: Graph, pre: nat, kind: EdgeKind, current: nat, header: nat, brk: nat, merge: nat,
                                     inLoop: bool, breakable: bool, j: nat, w: seq<Event>, to: At, n: nat)
    returns (s: Split)
    requires pre < |g| && current < |g| && pre != current && g[current].out == [] && kind in {ConditionalFalse, EdgeKind.SwitchCase}
    requires ScopedArms(a, if kind == ConditionalFalse then ConditionalAlternate else FlowEffect.SwitchCase, inLoop, breakable)
    requires FinalArms(f, |g|, current, PlaceArms(a, g, pre, kind, current, header), brk, merge)
    requires |PlaceArms(a, g, pre, kind, current, header).g| <= merge
    requires j < |Starts(a, g, pre, kind, header)| && Path(f, At(Starts(a, g, pre, kind, header)[j], 0), w, to, n)
    ensures s.i <= |w| && RunsArm(a, if kind == ConditionalFalse then WhenFalse else Case,
                                  [Take(if kind == ConditionalFalse then WhenFalse else Case)] + w[..s.i], s.o)
    ensures Arrives(f, s, w, to, n, At(merge, 0), brk, header) && Halts(f, s.o, to, merge)
    decreases n, a, 1
  {
    hide Final, FinalArms, Place, PlaceHead, Runs, Head, Path, Arrives, RunsArm, Joined;
    var fork := AddEdge(NewBlock(g, [a.lead]), pre, kind, |g|);
    var body := Place(a.body, fork, |g|, header);
    ArmParts(a, f, g, pre, kind, current, header, brk, merge);
    if j == 0 {
      s := FollowArmBody(a, f, fork, |g|, kind, header, brk, merge, inLoop, breakable, body, w, to, n);
    } else {
      s := FollowArm(a.rest, f, body.g, pre, kind, body.current, header, brk, merge, inLoop, breakable, j - 1, w, to, n);
      var choice := if kind == ConditionalFalse then WhenFalse else Case;
      LaterArm(a, choice, [Take(choice)] + w[..s.i], s.o);
    }
  }

  lemma LaterArm(a: Arms, choice: Choice, v: seq<Event>, o: Outcome)
    requires a.Arm? && RunsArm(a.rest, choice, v, o)
    ensures RunsArm(a, choice, v, o)
  {
  }

  lemma {:induction false} FollowArmBody(a: Arms, f: Graph, fork: Graph, start: nat, kind: EdgeKind, header: nat, brk: nat, merge: nat,
                                         inLoop: bool, breakable: bool, body: Placed, w: seq<Event>, to: At, n: nat)
    returns (s: Split)
    requires a.Arm? && kind in {ConditionalFalse, EdgeKind.SwitchCase} && Scoped(a.body, inLoop, breakable)
    requires start < |fork| && fork[start] == Node([a.lead], []) && start < |f| && f[start].insts != [] && f[start].insts[0] == a.lead
    requires body == Place(a.body, fork, start, header) && body.current < |body.g| <= |f| && Final(f, |fork|, start, body, brk)
    requires f[body.current] == Node(body.g[body.current].insts, [(EdgeKind.Fallthrough, merge)]) && body.current < merge
    requires Path(f, At(start, 0), w, to, n)
    ensures s.i <= |w| && RunsArm(a, if kind == ConditionalFalse then WhenFalse else Case,
                                  [Take(if kind == ConditionalFalse then WhenFalse else Case)] + w[..s.i], s.o)
    ensures Arrives(f, s, w, to, n, At(merge, 0), brk, header) && Halts(f, s.o, to, merge)
    decreases n, a, 0
  {
    hide Final, Place, PlaceHead, PlaceArms, Runs, Head, Scoped;
    var choice := if kind == ConditionalFalse then WhenFalse else Case;
    if n == 0 {
      assert [Take(choice)] + w[..0] == [Take(choice)];
      return Split(Cut, 0, 0);
    }
    StepInside(f, At(start, 0), a.lead, w, to, n);
    var b := Follow(a.body, f, fork, start, header, brk, inLoop, breakable, w[1..], to, n - 1);
    var e := JoinEnd(f, b, w[1..], to, n - 1, EndOf(body), EdgeKind.Fallthrough, merge, brk, header, merge);
    BodyRuns(a.body, w[1..][..b.i], b.o, e.o);
    s := ThenArrives(f, w, to, n, 1, 1, e, At(merge, 0), brk, header);
    LedRuns(a, choice, w, e.i, e.o);
  }

  lemma LedRuns(a: Arms, choice: Choice, w: seq<Event>, i: nat, o: Outcome)
    requires a.Arm? && 1 + i <= |w| && w[0] == Ex(a.lead) && Runs(a.body, w[1..][..i], o)
    ensures RunsArm(a, choice, [Take(choice)] + w[..1 + i], o)
  {
    var v := [Take(choice)] + w[..1 + i];
    assert v[0] == Take(choice) && v[1] == Ex(a.lead) && v[2..] == w[1..][..i];
  }
}
