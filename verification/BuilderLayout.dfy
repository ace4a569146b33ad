/** Where a structured program ends up in the graph, statement by statement, without the scope stack. */
module BuilderLayout {
  import opened EdgeKinds
  import opened Sequences
  import opened StructuredCode
  import opened Wrappers
  import opened Builder

  /** The graph once some code has been placed from the end of block `current` on: the block now current, and the blocks
      whose breaks still wait for the end of the region around. */
  datatype Placed = Placed(g: Graph, current: nat, breaks: seq<nat>)

  /** The same for the arms of a region, with the ends of all but the last. */
  datatype PlacedArms = PlacedArms(g: Graph, current: nat, exits: seq<nat>, breaks: seq<nat>)

  function PlaceSimple(t: Tok, g: Graph, current: nat, header: nat): Placed {
    var n, pushed := |g|, Push(g, current, t);
    if IsPlain(t) then Placed(pushed, current, [])
    else if IsExit(t) then Placed(NewBlock(pushed, []), n, [])
    else
      match t.effect
      case Break => Placed(NewBlock(pushed, []), n, [current])
      case Continue => Placed(AddEdge(NewBlock(pushed, []), current, Back, header), n, [])
      case ConditionalReturn => Placed(Forked(pushed, current, n, n + 1), n + 1, [])
      case ConditionalBreak => Placed(Forked(pushed, current, n, n + 1), n + 1, [n])
      case ConditionalContinue =>
        Placed(AddEdge(AddEdge(NewBlock(pushed, []), current, ConditionalTrue, header), current, ConditionalFalse, n), n, [])
      case Label => Placed(AddEdge(NewBlock(g, [t]), current, EdgeKind.Fallthrough, n), n, [])
      case ConditionalJump => Placed(AddEdge(NewBlock(pushed, []), current, ConditionalFalse, n), n, [])
      case _ => Placed(g, current, [])
  }

  function Forked(g: Graph, current: nat, aside: nat, onwards: nat): Graph {
    AddEdge(AddEdge(NewBlock(NewBlock(g, []), []), current, ConditionalTrue, aside), current, ConditionalFalse, onwards)
  }

  /** The region's first block, entered by an edge of `kind` after its opening instruction. */
  function Opened(g: Graph, current: nat, t: Tok, kind: EdgeKind): Graph {
    AddEdge(NewBlock(Push(g, current, t), []), current, kind, |g|)
  }

  function Merged(g: Graph, exits: seq<nat>): Graph { AddEdges(NewBlock(g, []), exits, EdgeKind.Fallthrough, |g|) }

  function Place(c: Code, g: Graph, current: nat, header: nat): Placed
    decreases c, 1
  {
    if c.Done? then Placed(g, current, [])
    else
      var first := PlaceHead(c, g, current, header);
      var rest := Place(c.next, first.g, first.current, header);
      Placed(rest.g, rest.current, first.breaks + rest.breaks)
  }

  /** The first statement alone. */
  function PlaceHead(c: Code, g: Graph, current: nat, header: nat): Placed
    requires !c.Done?
    decreases c, 0
  {
    match c
    case Simple(t, _) => PlaceSimple(t, g, current, header)
    case If(o, b, a, _, _) =>
      var body := Place(b, Opened(g, current, o, ConditionalTrue), |g|, header);
      var arms := PlaceArms(a, body.g, current, ConditionalFalse, body.current, header);
      var merged := Merged(arms.g, arms.exits + [arms.current]);
      Placed(if a.Arm? then merged else AddEdge(merged, current, ConditionalFalse, |arms.g|), |arms.g|, body.breaks + arms.breaks)
    case Switch(o, b, a, _, _) =>
      var body := Place(b, Opened(g, current, o, EdgeKind.SwitchCase), |g|, header);
      var arms := PlaceArms(a, body.g, current, EdgeKind.SwitchCase, body.current, header);
      var merged := Merged(arms.g, arms.exits + [arms.current]);
      Placed(AddEdges(merged, body.breaks + arms.breaks, Unconditional, |arms.g|), |arms.g|, [])
    case Loop(o, b, _, _) =>
      var body := Place(b, Opened(g, current, o, EdgeKind.Fallthrough), |g|, |g|);
      var closed := NewBlock(AddEdge(body.g, body.current, Back, |g|), []);
      Placed(AddEdges(closed, body.breaks, Unconditional, |body.g|), |body.g|, [])
  }

  function PlaceArms(a: Arms, g: Graph, pre: nat, kind: EdgeKind, current: nat, header: nat): PlacedArms
    decreases a, 1
  {
    match a
    case NoArm => PlacedArms(g, current, [], [])
    case Arm(l, b, r) =>
      var body := Place(b, AddEdge(NewBlock(g, [l]), pre, kind, |g|), |g|, header);
      var rest := PlaceArms(r, body.g, pre, kind, body.current, header);
      PlacedArms(rest.g, rest.current, [current] + rest.exits, body.breaks + rest.breaks)
  }

  /** `b` is `current` or was made since the graph had `n` blocks. */
  predicate Own(n: nat, current: nat, b: nat) { b == current || b >= n }

  /** Blocks that wait for their edges: live, made here, without edges, each listed once. */
  ghost predicate Waiting(g: Graph, n: nat, current: nat, blocks: seq<nat>) {
    && Unique(blocks)
    && forall i {:trigger blocks[i]} :: 0 <= i < |blocks| ==> blocks[i] < |g| && Own(n, current, blocks[i]) && g[blocks[i]].out == []
  }

  /** What placing code touches: the block it starts in, which only grows, and blocks of its own. */
  ghost predicate Framed(g: Graph, current: nat, p: Placed) {
    && current < |g| <= |p.g| && p.current < |p.g|
    && (forall b {:trigger p.g[b]} {:trigger g[b]} :: 0 <= b < |g| && b != current ==> p.g[b] == g[b])
    && g[current].insts <= p.g[current].insts
    && Waiting(p.g, |g|, current, p.breaks + [p.current])
  }

  lemma ForkFramed(t: Tok, g: Graph, current: nat, header: nat)
    requires current < |g| && g[current].out == [] && t.effect in {ConditionalReturn, ConditionalBreak, ConditionalContinue}
    ensures Framed(g, current, PlaceSimple(t, g, current, header))
  {
    hide AddEdges;
    var p := PlaceSimple(t, g, current, header);
    assert p.breaks == [] || p.breaks == [|g|];
  }

  lemma SimpleFramed(t: Tok, g: Graph, current: nat, header: nat)
    requires current < |g| && g[current].out == []
    ensures Framed(g, current, PlaceSimple(t, g, current, header))
  {
    hide AddEdges;
    if t.effect in {ConditionalReturn, ConditionalBreak, ConditionalContinue} {
      hide PlaceSimple, Framed;
      ForkFramed(t, g, current, header);
    } else {
      var p := PlaceSimple(t, g, current, header);
      assert p.breaks == [] || p.breaks == [current];
    }
  }

  /** Placing more from where the first part left off. */
  lemma FramedThen(g: Graph, current: nat, first: Placed, rest: Placed)
    requires Framed(g, current, first) && Framed(first.g, first.current, rest)
    ensures Framed(g, current, Placed(rest.g, rest.current, first.breaks + rest.breaks))
  {
    var all := first.breaks + rest.breaks + [rest.current];
    var mine, more := first.breaks + [first.current], rest.breaks + [rest.current];
    assert mine[|first.breaks|] == first.current;
    forall i | 0 <= i < |all|
      ensures all[i] < |rest.g| && Own(|g|, current, all[i]) && rest.g[all[i]].out == []
      ensures i < |first.breaks| ==> all[i] == mine[i] && all[i] < |first.g| && all[i] != first.current
      ensures i >= |first.breaks| ==> all[i] == more[i - |first.breaks|] && Own(|first.g|, first.current, all[i])
    {
      if i < |first.breaks| {
        assert all[i] == mine[i];
        assert mine[i] != mine[|first.breaks|];
      } else {
        assert all[i] == more[i - |first.breaks|];
      }
    }
    forall i, j | 0 <= i < j < |all| ensures all[i] != all[j] {
      if j < |first.breaks| {
        assert mine[i] != mine[j];
      } else if i >= |first.breaks| {
        assert more[i - |first.breaks|] != more[j - |first.breaks|];
      }
    }
  }

  /** The first block of each arm. */
  function Starts(a: Arms, g: Graph, pre: nat, kind: EdgeKind, header: nat): seq<nat>
    decreases a
  {
    match a
    case NoArm => []
    case Arm(l, b, r) =>
      var body := Place(b, AddEdge(NewBlock(g, [l]), pre, kind, |g|), |g|, header);
      [|g|] + Starts(r, body.g, pre, kind, header)
  }

  function EdgesTo(kind: EdgeKind, targets: seq<nat>): seq<(EdgeKind, nat)> {
    seq(|targets|, i requires 0 <= i < |targets| => (kind, targets[i]))
  }

  /** What placing arms touches: the block they branch from, which gets an edge to each, and blocks of its own. */
  ghost predicate FramedArms(g: Graph, pre: nat, current: nat, p: PlacedArms, kind: EdgeKind, starts: seq<nat>) {
    && pre < |g| <= |p.g| && current < |g| && pre != current
    && (forall b {:trigger p.g[b]} {:trigger g[b]} :: 0 <= b < |g| && b != pre ==> p.g[b] == g[b])
    && p.g[pre] == Node(g[pre].insts, g[pre].out + EdgesTo(kind, starts))
    && Waiting(p.g, |g|, current, p.exits + [p.current] + p.breaks)
  }

  /** What waits inside an arm and in the arms after it. */
  function Ends(rest: PlacedArms, breaks: seq<nat>): seq<nat> { rest.exits + [rest.current] + (breaks + rest.breaks) }

  lemma JoinWaiting(n: nat, body: Placed, rest: PlacedArms)
    requires n < |body.g| <= |rest.g| && body.current < |body.g|
    requires Waiting(body.g, n + 1, n, body.breaks + [body.current])
    requires forall b {:trigger rest.g[b]} :: 0 <= b < |body.g| && body.g[b].out == [] ==> rest.g[b].out == []
    requires Waiting(rest.g, |body.g|, body.current, rest.exits + [rest.current] + rest.breaks)
    ensures Waiting(rest.g, n + 1, n, Ends(rest, body.breaks))
  {
    var mine, more := body.breaks + [body.current], rest.exits + [rest.current] + rest.breaks;
    var e := |rest.exits| + 1;
    var all := Ends(rest, body.breaks);
    assert mine[|body.breaks|] == body.current;
    forall i | 0 <= i < |all|
      ensures all[i] < |rest.g| && Own(n + 1, n, all[i]) && rest.g[all[i]].out == []
      ensures i < e ==> all[i] == more[i]
      ensures e <= i < e + |body.breaks| ==> all[i] == mine[i - e]
      ensures i >= e + |body.breaks| ==> all[i] == more[i - |body.breaks|]
    {
      if i < e {
        assert all[i] == more[i];
      } else if i < e + |body.breaks| {
        assert all[i] == mine[i - e];
      } else {
        assert all[i] == more[i - |body.breaks|];
      }
    }
    forall i, j | 0 <= i < j < |all| ensures all[i] != all[j] {
      var k := |body.breaks|;
      if e <= i < e + k {
        assert mine[i - e] != mine[k] && mine[i - e] < |body.g|;
        if e <= j < e + k {
          assert mine[i - e] != mine[j - e];
        } else {
          assert Own(|body.g|, body.current, more[j - k]);
        }
      } else if e <= j < e + k {
        assert mine[j - e] != mine[k] && mine[j - e] < |body.g|;
        assert Own(|body.g|, body.current, more[i]);
      } else {
        var i', j' := if i < e then i else i - k, if j < e then j else j - k;
        assert more[i'] != more[j'];
      }
    }
  }

  lemma ArmFramed(g: Graph, pre: nat, kind: EdgeKind, current: nat, lead: Tok, body: Placed, rest: PlacedArms, starts: seq<nat>)
    requires pre < |g| && current < |g| && pre != current && g[current].out == []
    requires Framed(AddEdge(NewBlock(g, [lead]), pre, kind, |g|), |g|, body)
    requires FramedArms(body.g, pre, body.current, rest, kind, starts)
    ensures FramedArms(g, pre, current, PlacedArms(rest.g, rest.current, [current] + rest.exits, body.breaks + rest.breaks), kind,
                       [|g|] + starts)
  {
    var all := [current] + rest.exits + [rest.current] + (body.breaks + rest.breaks);
    assert rest.g[pre].out == g[pre].out + EdgesTo(kind, [|g|] + starts);
    assert |AddEdge(NewBlock(g, [lead]), pre, kind, |g|)[pre].out| > 0;
    assert forall b {:trigger rest.g[b]} :: 0 <= b < |body.g| && body.g[b].out == [] ==> rest.g[b].out == [];
    JoinWaiting(|g|, body, rest);
    assert all == [current] + Ends(rest, body.breaks);
    forall i | 0 <= i < |all| ensures all[i] < |rest.g| && Own(|g|, current, all[i]) && rest.g[all[i]].out == [] {
      if i > 0 {
        assert all[i] == Ends(rest, body.breaks)[i - 1];
      } else {
        assert body.g[current] == g[current];
      }
    }
  }

  /** One edge out of each source, and nothing else. */
  lemma {:induction false} AddEdgesOnce(g: Graph, sources: seq<nat>, kind: EdgeKind, to: nat)
    requires Unique(sources) && forall i :: 0 <= i < |sources| ==> sources[i] < |g|
    ensures var h := AddEdges(g, sources, kind, to);
            && |h| == |g|
            && forall b {:trigger h[b]} :: 0 <= b < |g| ==> h[b] == if b in sources then Node(g[b].insts, g[b].out + [(kind, to)]) else g[b]
  {
    if sources != [] {
      var most, last := sources[..|sources| - 1], sources[|sources| - 1];
      AddEdgesOnce(g, most, kind, to);
      assert sources == most + [last];
      assert last !in most;
    }
  }

  /** The arms of a region opened in `current`: everything that waits is its own. */
  lemma RegionFramed(g: Graph, current: nat, t: Tok, first: EdgeKind, body: Placed, arms: PlacedArms, kind: EdgeKind, starts: seq<nat>)
    requires current < |g| && g[current].out == []
    requires Framed(Opened(g, current, t, first), |g|, body) && FramedArms(body.g, current, body.current, arms, kind, starts)
    ensures Waiting(arms.g, |g| + 1, |g|, Ends(arms, body.breaks))
    ensures |g| < |arms.g| && forall b {:trigger arms.g[b]} {:trigger g[b]} :: 0 <= b < |g| && b != current ==> arms.g[b] == g[b]
    ensures arms.g[current] == Node(g[current].insts + [t], [(first, |g|)] + EdgesTo(kind, starts))
  {
    var fork := Opened(g, current, t, first);
    assert fork[current] == Node(g[current].insts + [t], [(first, |g|)]);
    assert body.g[current] == fork[current];
    forall b | 0 <= b < |body.g| && body.g[b].out == [] ensures arms.g[b].out == [] {
    }
    JoinWaiting(|g|, body, arms);
  }

  function Joined(arms: PlacedArms): seq<nat> { arms.exits + [arms.current] }

  /** The ends of a region's arms and the breaks inside it are different blocks of its own. */
  lemma SplitEnds(n: nat, arms: PlacedArms, breaks: seq<nat>)
    requires Waiting(arms.g, n + 1, n, Ends(arms, breaks))
    ensures Waiting(arms.g, n + 1, n, Joined(arms)) && Waiting(arms.g, n + 1, n, breaks + arms.breaks)
    ensures forall b :: b in breaks + arms.breaks ==> b !in Joined(arms)
    ensures forall b :: b in breaks + arms.breaks || b in Joined(arms) ==> n <= b < |arms.g|
  {
    var all, e := Ends(arms, breaks), |Joined(arms)|;
    assert forall i :: 0 <= i < e ==> all[i] == Joined(arms)[i];
    assert forall i :: 0 <= i < |breaks + arms.breaks| ==> all[e + i] == (breaks + arms.breaks)[i];
  }

  /** After a merge, each joined block has one edge to the new block, and every other is as it was. */
  lemma MergedFacts(g: Graph, exits: seq<nat>)
    requires Unique(exits) && forall i :: 0 <= i < |exits| ==> exits[i] < |g| && g[exits[i]].out == []
    ensures var h := Merged(g, exits);
            && |h| == |g| + 1 && h[|g|] == Node([], [])
            && forall b {:trigger h[b]} {:trigger g[b]} :: 0 <= b < |g| ==>
                 h[b] == if b in exits then Node(g[b].insts, [(EdgeKind.Fallthrough, |g|)]) else g[b]
  {
    AddEdgesOnce(NewBlock(g, []), exits, EdgeKind.Fallthrough, |g|);
    forall b | 0 <= b < |g| ensures Merged(g, exits)[b] == if b in exits then Node(g[b].insts, [(EdgeKind.Fallthrough, |g|)]) else g[b] {
      assert NewBlock(g, [])[b] == g[b];
      assert b in exits ==> g[b].out == [];
    }
  }

  function IfGraph(arms: PlacedArms, current: nat, alternate: bool): Graph {
    if alternate then Merged(arms.g, Joined(arms)) else AddEdge(Merged(arms.g, Joined(arms)), current, ConditionalFalse, |arms.g|)
  }

  lemma WaitingMore(g: Graph, h: Graph, n: nat, current: nat, blocks: seq<nat>)
    requires Waiting(g, n + 1, n, blocks) && |h| == |g| + 1 && h[|g|].out == [] && current < n <= |g|
    requires forall i :: 0 <= i < |blocks| ==> h[blocks[i]].out == []
    ensures Waiting(h, n, current, blocks + [|g|])
  {
    var all := blocks + [|g|];
    forall i | 0 <= i < |all| ensures all[i] < |h| && Own(n, current, all[i]) && h[all[i]].out == [] {
      assert i < |blocks| ==> all[i] == blocks[i] && Own(n + 1, n, blocks[i]);
    }
  }

  /** Closing an `if` joins its arms and, without an alternate, the block it opened in. */
  lemma IfFramed(g: Graph, current: nat, t: Tok, body: Placed, arms: PlacedArms, starts: seq<nat>, alternate: bool)
    requires current < |g| && g[current].out == []
    requires Framed(Opened(g, current, t, ConditionalTrue), |g|, body)
    requires FramedArms(body.g, current, body.current, arms, ConditionalFalse, starts)
    ensures Framed(g, current, Placed(IfGraph(arms, current, alternate), |arms.g|, body.breaks + arms.breaks))
  {
    RegionFramed(g, current, t, ConditionalTrue, body, arms, ConditionalFalse, starts);
    SplitEnds(|g|, arms, body.breaks);
    MergedFacts(arms.g, Joined(arms));
    WaitingMore(arms.g, IfGraph(arms, current, alternate), |g|, current, body.breaks + arms.breaks);
  }

  function SwitchGraph(arms: PlacedArms, breaks: seq<nat>): Graph {
    AddEdges(Merged(arms.g, Joined(arms)), breaks, Unconditional, |arms.g|)
  }

  /** Closing a `switch` joins its arms and the breaks inside it. */
  lemma SwitchFacts(g: Graph, current: nat, t: Tok, body: Placed, arms: PlacedArms, starts: seq<nat>)
    requires current < |g| && g[current].out == []
    requires Framed(Opened(g, current, t, EdgeKind.SwitchCase), |g|, body)
    requires FramedArms(body.g, current, body.current, arms, EdgeKind.SwitchCase, starts)
    ensures var breaks := body.breaks + arms.breaks; var h := SwitchGraph(arms, breaks);
            && |h| == |arms.g| + 1 && h[|arms.g|] == Node([], [])
            && forall b {:trigger h[b]} {:trigger arms.g[b]} :: 0 <= b < |arms.g| ==>
                 h[b] == if b in Joined(arms) then Node(arms.g[b].insts, [(EdgeKind.Fallthrough, |arms.g|)])
                         else if b in breaks then Node(arms.g[b].insts, [(Unconditional, |arms.g|)]) else arms.g[b]
    ensures Framed(g, current, Placed(SwitchGraph(arms, body.breaks + arms.breaks), |arms.g|, []))
  {
    var breaks := body.breaks + arms.breaks;
    RegionFramed(g, current, t, EdgeKind.SwitchCase, body, arms, EdgeKind.SwitchCase, starts);
    SplitEnds(|g|, arms, body.breaks);
    MergedFacts(arms.g, Joined(arms));
    var merged := Merged(arms.g, Joined(arms));
    AddEdgesOnce(merged, breaks, Unconditional, |arms.g|);
    assert forall b :: b in breaks ==> merged[b].out == [];
    WaitingMore(arms.g, SwitchGraph(arms, breaks), |g|, current, []);
    assert [] + [|arms.g|] == [|arms.g|];
  }

  function LoopGraph(body: Placed, header: nat): Graph {
    AddEdges(NewBlock(AddEdge(body.g, body.current, Back, header), []), body.breaks, Unconditional, |body.g|)
  }

  /** Closing a loop leads its end back to the header and its breaks to the block behind it. */
  lemma LoopFacts(g: Graph, current: nat, t: Tok, body: Placed)
    requires current < |g| && g[current].out == [] && Framed(Opened(g, current, t, EdgeKind.Fallthrough), |g|, body)
    ensures var h := LoopGraph(body, |g|);
            && |h| == |body.g| + 1 && h[|body.g|] == Node([], [])
            && forall b {:trigger h[b]} {:trigger body.g[b]} :: 0 <= b < |body.g| ==>
                 h[b] == if b == body.current then Node(body.g[b].insts, [(Back, |g|)])
                         else if b in body.breaks then Node(body.g[b].insts, [(Unconditional, |body.g|)]) else body.g[b]
  {
    LoopWaiting(g, current, t, body);
    var closed := NewBlock(AddEdge(body.g, body.current, Back, |g|), []);
    assert forall i :: 0 <= i < |body.breaks| ==> body.breaks[i] in body.breaks;
    AddEdgesOnce(closed, body.breaks, Unconditional, |body.g|);
  }

  lemma LoopWaiting(g: Graph, current: nat, t: Tok, body: Placed)
    requires current < |g| && g[current].out == [] && Framed(Opened(g, current, t, EdgeKind.Fallthrough), |g|, body)
    ensures Unique(body.breaks) && body.current !in body.breaks && body.g[body.current].out == [] && body.current >= |g|
    ensures forall b :: b in body.breaks ==> |g| <= b < |body.g| && body.g[b].out == []
    ensures body.g[current] == Node(g[current].insts + [t], [(EdgeKind.Fallthrough, |g|)])
  {
    var all, k := body.breaks + [body.current], |body.breaks|;
    assert all[k] == body.current;
    assert forall i :: 0 <= i < k ==> all[i] == body.breaks[i];
    assert Opened(g, current, t, EdgeKind.Fallthrough)[current] == Node(g[current].insts + [t], [(EdgeKind.Fallthrough, |g|)]);
  }

  lemma LoopFramed(g: Graph, current: nat, t: Tok, body: Placed)
    requires current < |g| && g[current].out == [] && Framed(Opened(g, current, t, EdgeKind.Fallthrough), |g|, body)
    ensures Framed(g, current, Placed(LoopGraph(body, |g|), |body.g|, []))
  {
    LoopWaiting(g, current, t, body);
    LoopFacts(g, current, t, body);
    WaitingMore(body.g, LoopGraph(body, |g|), |g|, current, []);
    assert [] + [|body.g|] == [|body.g|];
  }

  /** Placing any code touches only the block it starts in and its own. */
  lemma {:induction false} PlaceFramed(c: Code, g: Graph, current: nat, header: nat)
    requires current < |g| && g[current].out == []
    ensures Framed(g, current, Place(c, g, current, header))
    decreases c, 1
  {
    if c.Done? {
      assert [current] == [] + [current];
    } else {
      PlaceHeadFramed(c, g, current, header);
      var first := PlaceHead(c, g, current, header);
      assert (first.breaks + [first.current])[|first.breaks|] == first.current;
      PlaceFramed(c.next, first.g, first.current, header);
      FramedThen(g, current, first, Place(c.next, first.g, first.current, header));
    }
  }

  lemma {:induction false} PlaceHeadFramed(c: Code, g: Graph, current: nat, header: nat)
    requires !c.Done? && current < |g| && g[current].out == []
    ensures Framed(g, current, PlaceHead(c, g, current, header))
    decreases c, 0
  {
    match c
    case Simple(t, _) => SimpleFramed(t, g, current, header);
    case If(o, b, a, _, _) =>
      RegionPlaced(c, g, current, header);
      var body, arms := BodyOf(c, g, current, header), ArmsOf(c, g, current, header);
      IfFramed(g, current, o, body, arms, Starts(a, body.g, current, ConditionalFalse, header), a.Arm?);
    case Switch(o, b, a, _, _) =>
      RegionPlaced(c, g, current, header);
      var body, arms := BodyOf(c, g, current, header), ArmsOf(c, g, current, header);
      SwitchFacts(g, current, o, body, arms, Starts(a, body.g, current, EdgeKind.SwitchCase, header));
    case Loop(o, b, _, _) =>
      PlaceFramed(b, Opened(g, current, o, EdgeKind.Fallthrough), |g|, |g|);
      LoopFramed(g, current, o, Place(b, Opened(g, current, o, EdgeKind.Fallthrough), |g|, |g|));
  }

  function FirstKind(c: Code): EdgeKind { if c.If? then ConditionalTrue else EdgeKind.SwitchCase }

  function ArmKind(c: Code): EdgeKind { if c.If? then ConditionalFalse else EdgeKind.SwitchCase }

  /** The body of a branching region, and its arms. */
  function BodyOf(c: Code, g: Graph, current: nat, header: nat): Placed
    requires c.If? || c.Switch?
  {
    Place(c.body, Opened(g, current, c.open, FirstKind(c)), |g|, header)
  }

  function ArmsOf(c: Code, g: Graph, current: nat, header: nat): PlacedArms
    requires c.If? || c.Switch?
  {
    var body := BodyOf(c, g, current, header);
    PlaceArms(c.arms, body.g, current, ArmKind(c), body.current, header)
  }

  lemma {:induction false} RegionPlaced(c: Code, g: Graph, current: nat, header: nat)
    requires (c.If? || c.Switch?) && current < |g| && g[current].out == []
    ensures var body := BodyOf(c, g, current, header);
            && Framed(Opened(g, current, c.open, FirstKind(c)), |g|, body)
            && FramedArms(body.g, current, body.current, ArmsOf(c, g, current, header), ArmKind(c),
                          Starts(c.arms, body.g, current, ArmKind(c), header))
    decreases c, -1
  {
    var body := BodyOf(c, g, current, header);
    PlaceFramed(c.body, Opened(g, current, c.open, FirstKind(c)), |g|, header);
    assert (body.breaks + [body.current])[|body.breaks|] == body.current;
    PlaceArmsFramed(c.arms, body.g, current, ArmKind(c), body.current, header);
  }

  lemma {:induction false} PlaceArmsFramed(a: Arms, g: Graph, pre: nat, kind: EdgeKind, current: nat, header: nat)
    requires pre < |g| && current < |g| && pre != current && g[current].out == []
    ensures FramedArms(g, pre, current, PlaceArms(a, g, pre, kind, current, header), kind, Starts(a, g, pre, kind, header))
    decreases a, 1
  {
    match a
    case NoArm =>
      assert [] + [current] + [] == [current];
      assert g[pre].out + EdgesTo(kind, []) == g[pre].out;
    case Arm(l, b, r) =>
      var start := AddEdge(NewBlock(g, [l]), pre, kind, |g|);
      PlaceFramed(b, start, |g|, header);
      var body := Place(b, start, |g|, header);
      assert (body.breaks + [body.current])[|body.breaks|] == body.current;
      PlaceArmsFramed(r, body.g, pre, kind, body.current, header);
      ArmFramed(g, pre, kind, current, l, body, PlaceArms(r, body.g, pre, kind, body.current, header),
                Starts(r, body.g, pre, kind, header));
  }
}
