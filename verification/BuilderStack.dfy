/** The scope stack places a well-nested program exactly where its structure says. */
module BuilderStack {
  import opened EdgeKinds
  import opened StructuredCode
  import opened Wrappers
  import opened Builder
  import opened BuilderLayout

  /** The scopes once every block of `bs` has been recorded as leaving the innermost loop or switch. */
  function AddBreaks(scopes: seq<Scope>, bs: seq<nat>): (r: seq<Scope>)
    ensures |r| == |scopes|
  {
    if scopes == [] then []
    else
      var n, top := |scopes| - 1, scopes[|scopes| - 1];
      if top.IfScope? then AddBreaks(scopes[..n], bs) + [top] else scopes[n := top.(breaks := top.breaks + bs)]
  }

  lemma {:induction false} RecordIsAdd(scopes: seq<Scope>, b: nat)
    requires Breakable(scopes)
    ensures RecordBreak(scopes, b) == AddBreaks(scopes, [b])
  {
    if scopes[|scopes| - 1].IfScope? {
      RecordIsAdd(scopes[..|scopes| - 1], b);
    }
  }

  lemma {:induction false} AddBreaksTwice(scopes: seq<Scope>, a: seq<nat>, b: seq<nat>)
    ensures AddBreaks(AddBreaks(scopes, a), b) == AddBreaks(scopes, a + b)
  {
    if scopes != [] {
      var n := |scopes| - 1;
      if scopes[n].IfScope? {
        AddBreaksTwice(scopes[..n], a, b);
        assert AddBreaks(scopes, a)[..n] == AddBreaks(scopes[..n], a);
      } else {
        assert Breaks(scopes[n]) + a + b == Breaks(scopes[n]) + (a + b);
      }
    }
  }

  function Breaks(s: Scope): seq<nat> { if s.IfScope? then [] else s.breaks }

  lemma {:induction false} AddNoBreaks(scopes: seq<Scope>)
    ensures AddBreaks(scopes, []) == scopes
  {
    if scopes != [] {
      var n := |scopes| - 1;
      AddNoBreaks(scopes[..n]);
      assert scopes == scopes[..n] + [scopes[n]];
      assert Breaks(scopes[n]) + [] == Breaks(scopes[n]);
    }
  }

  /** Recording breaks changes nothing a later instruction looks at. */
  lemma {:induction false} AddBreaksKeeps(scopes: seq<Scope>, bs: seq<nat>)
    ensures Breakable(AddBreaks(scopes, bs)) == Breakable(scopes) && InLoop(AddBreaks(scopes, bs)) == InLoop(scopes)
    ensures InLoop(scopes) ==> LoopHeader(AddBreaks(scopes, bs)) == LoopHeader(scopes)
  {
    if scopes != [] {
      var n := |scopes| - 1;
      AddBreaksKeeps(scopes[..n], bs);
      if scopes[n].IfScope? {
        assert AddBreaks(scopes, bs)[..n] == AddBreaks(scopes[..n], bs);
      } else {
        assert AddBreaks(scopes, bs)[..n] == scopes[..n];
      }
    }
  }

  lemma PushScope(scopes: seq<Scope>, s: Scope)
    ensures InLoop(scopes + [s]) == (s.LoopScope? || InLoop(scopes))
    ensures Breakable(scopes + [s]) == (!s.IfScope? || Breakable(scopes))
    ensures InLoop(scopes + [s]) ==> LoopHeader(scopes + [s]) == if s.LoopScope? then s.header else LoopHeader(scopes)
  {
    assert (scopes + [s])[..|scopes|] == scopes;
  }

  lemma AddBreaksTop(scopes: seq<Scope>, s: Scope, bs: seq<nat>)
    ensures AddBreaks(scopes + [s], bs) ==
            if s.IfScope? then AddBreaks(scopes, bs) + [s] else scopes + [s.(breaks := s.breaks + bs)]
  {
    assert (scopes + [s])[..|scopes|] == scopes;
  }

  lemma {:induction false} ProcessAppend(st: State, a: seq<Tok>, b: seq<Tok>)
    ensures ProcessAll(st, a + b) == match ProcessAll(st, a) case Err(e) => Err(e) case Ok(next) => ProcessAll(next, b)
    decreases |b|
  {
    if b == [] {
      assert a + b == a;
    } else {
      ProcessAppend(st, a, b[..|b| - 1]);
      assert (a + b)[..|a + b| - 1] == a + b[..|b| - 1];
    }
  }

  lemma ProcessOne(st: State, t: Tok)
    ensures ProcessAll(st, [t]) == Process(st, t)
  {
    assert [t][..0] == [];
    assert ProcessAll(st, []) == Ok(st);
  }

  /** The state once placed code has been processed. */
  function Advance(st: State, p: Placed): State { State(p.g, p.current, AddBreaks(st.scopes, p.breaks)) }

  /** The stack knows what the structure says: which loop is around. */
  predicate Knows(st: State, header: nat) {
    st.current < |st.g| && st.g[st.current].out == [] && (InLoop(st.scopes) ==> header == LoopHeader(st.scopes))
  }

  lemma SimpleStep(t: Tok, st: State, header: nat)
    requires Knows(st, header) && SimpleScoped(t, InLoop(st.scopes), Breakable(st.scopes))
    ensures Process(st, t) == Ok(Advance(st, PlaceSimple(t, st.g, st.current, header)))
  {
    AddNoBreaks(st.scopes);
    if t.effect == Break {
      RecordIsAdd(st.scopes, st.current);
    } else if t.effect == ConditionalBreak {
      RecordIsAdd(st.scopes, |st.g|);
    }
  }

  function FlattenHead(c: Code): seq<Tok>
    requires !c.Done?
  {
    match c
    case Simple(t, _) => [t]
    case If(o, b, a, e, _) => [o] + Flatten(b) + FlattenArms(a) + [e]
    case Switch(o, b, a, e, _) => [o] + Flatten(b) + FlattenArms(a) + [e]
    case Loop(o, b, e, _) => [o] + Flatten(b) + [e]
  }

  lemma FlattenSplit(c: Code)
    requires !c.Done?
    ensures Flatten(c) == FlattenHead(c) + Flatten(c.next)
  {
  }

  lemma KnowsNext(st: State, header: nat, p: Placed)
    requires Knows(st, header) && Framed(st.g, st.current, p)
    ensures Knows(Advance(st, p), header)
    ensures InLoop(Advance(st, p).scopes) == InLoop(st.scopes) && Breakable(Advance(st, p).scopes) == Breakable(st.scopes)
  {
    AddBreaksKeeps(st.scopes, p.breaks);
    assert (p.breaks + [p.current])[|p.breaks|] == p.current;
  }

  lemma ScopedHead(c: Code, inLoop: bool, breakable: bool)
    requires !c.Done? && Scoped(c, inLoop, breakable)
    ensures Scoped(c.next, inLoop, breakable)
  {
  }

  /** Processing a well-nested program from any state the builder can be in places it where its structure says, with its
      breaks recorded in the innermost scope they leave. */
  lemma {:induction false} StackPlaces(c: Code, st: State, header: nat)
    requires Knows(st, header) && Scoped(c, InLoop(st.scopes), Breakable(st.scopes))
    ensures ProcessAll(st, Flatten(c)) == Ok(Advance(st, Place(c, st.g, st.current, header)))
    decreases c, 1
  {
    if c.Done? {
      AddNoBreaks(st.scopes);
    } else {
      var first := PlaceHead(c, st.g, st.current, header);
      StackPlacesHead(c, st, header);
      PlaceHeadFramed(c, st.g, st.current, header);
      KnowsNext(st, header, first);
      ScopedHead(c, InLoop(st.scopes), Breakable(st.scopes));
      StackPlaces(c.next, Advance(st, first), header);
      FlattenSplit(c);
      ProcessAppend(st, FlattenHead(c), Flatten(c.next));
      AddBreaksTwice(st.scopes, first.breaks, Place(c.next, first.g, first.current, header).breaks);
    }
  }

  lemma {:induction false} StackPlacesHead(c: Code, st: State, header: nat)
    requires !c.Done? && Knows(st, header) && Scoped(c, InLoop(st.scopes), Breakable(st.scopes))
    ensures ProcessAll(st, FlattenHead(c)) == Ok(Advance(st, PlaceHead(c, st.g, st.current, header)))
    decreases c, 0
  {
    match c
    case Simple(t, _) =>
      SimpleStep(t, st, header);
      ProcessOne(st, t);
    case If(_, _, _, _, _) => StackRegion(c, st, header);
    case Switch(_, _, _, _, _) => StackRegion(c, st, header);
    case Loop(o, b, e, _) => StackLoop(c, st, header);
  }

  /** The region around has more exits. */
  function WithExits(scopes: seq<Scope>, exits: seq<nat>): seq<Scope>
    requires scopes != [] && !scopes[|scopes| - 1].LoopScope?
  {
    var n := |scopes| - 1;
    scopes[n := scopes[n].(exits := scopes[n].exits + exits)]
  }

  predicate Branching(scopes: seq<Scope>) { scopes != [] && !scopes[|scopes| - 1].LoopScope? }

  lemma StillBranching(scopes: seq<Scope>, bs: seq<nat>)
    requires Branching(scopes)
    ensures Branching(AddBreaks(scopes, bs))
    ensures var (a, b) := (scopes[|scopes| - 1], AddBreaks(scopes, bs)[|scopes| - 1]);
            a.IfScope? == b.IfScope? && a.pre == b.pre && a.exits == b.exits
  {
  }

  /** More exits of the top scope and more breaks do not get in each other's way. */
  lemma ExitsThenBreaks(scopes: seq<Scope>, exits: seq<nat>, bs: seq<nat>)
    requires Branching(scopes)
    ensures Branching(AddBreaks(scopes, bs)) && Branching(WithExits(scopes, exits))
    ensures AddBreaks(WithExits(scopes, exits), bs) == WithExits(AddBreaks(scopes, bs), exits)
  {
    var n := |scopes| - 1;
    assert WithExits(scopes, exits)[..n] == scopes[..n];
    if scopes[n].IfScope? {
      assert WithExits(AddBreaks(scopes, bs), exits)[..n] == AddBreaks(scopes[..n], bs);
    }
  }

  lemma ExitsTwice(scopes: seq<Scope>, a: seq<nat>, b: seq<nat>)
    requires Branching(scopes)
    ensures Branching(WithExits(scopes, a)) && WithExits(WithExits(scopes, a), b) == WithExits(scopes, a + b)
  {
    var n := |scopes| - 1;
    assert scopes[n].exits + a + b == scopes[n].exits + (a + b);
  }

  lemma ExitsKeep(scopes: seq<Scope>, exits: seq<nat>)
    requires Branching(scopes)
    ensures Breakable(WithExits(scopes, exits)) == Breakable(scopes) && InLoop(WithExits(scopes, exits)) == InLoop(scopes)
    ensures InLoop(scopes) ==> LoopHeader(WithExits(scopes, exits)) == LoopHeader(scopes)
  {
    assert WithExits(scopes, exits)[..|scopes| - 1] == scopes[..|scopes| - 1];
  }

  /** The state once placed arms have been processed. */
  function AdvanceArms(st: State, p: PlacedArms): State
    requires Branching(st.scopes) && Branching(AddBreaks(st.scopes, p.breaks))
  {
    State(p.g, p.current, WithExits(AddBreaks(st.scopes, p.breaks), p.exits))
  }

  /** Starting an arm. */
  lemma ArmStep(st: State, lead: Tok, header: nat)
    requires Knows(st, header) && Branching(st.scopes) && Top(st).pre < |st.g|
    requires lead.effect == if Top(st).IfScope? then ConditionalAlternate else FlowEffect.SwitchCase
    ensures var kind := if Top(st).IfScope? then ConditionalFalse else EdgeKind.SwitchCase;
            var next := State(AddEdge(NewBlock(st.g, [lead]), Top(st).pre, kind, |st.g|), |st.g|, WithExits(st.scopes, [st.current]));
            && Process(st, lead) == Ok(next) && (Top(st).pre != st.current ==> Knows(next, header))
            && InLoop(next.scopes) == InLoop(st.scopes) && Breakable(next.scopes) == Breakable(st.scopes)
  {
    ExitsKeep(st.scopes, [st.current]);
    assert Outer(st) + [Top(st).(exits := Top(st).exits + [st.current])] == WithExits(st.scopes, [st.current]);
  }

  lemma {:induction false} StackArms(a: Arms, st: State, pre: nat, header: nat)
    requires Knows(st, header) && Branching(st.scopes) && Top(st).pre == pre && pre < |st.g| && pre != st.current
    requires ScopedArms(a, if Top(st).IfScope? then ConditionalAlternate else FlowEffect.SwitchCase, InLoop(st.scopes), Breakable(st.scopes))
    ensures var kind := if Top(st).IfScope? then ConditionalFalse else EdgeKind.SwitchCase;
            var p := PlaceArms(a, st.g, pre, kind, st.current, header);
            Branching(AddBreaks(st.scopes, p.breaks)) && ProcessAll(st, FlattenArms(a)) == Ok(AdvanceArms(st, p))
    decreases a, 1
  {
    hide Place, Framed, FramedArms, AddBreaks, Knows, InLoop, Breakable;
    if a.NoArm? {
      AddNoBreaks(st.scopes);
      assert ProcessAll(st, []) == Ok(st);
      assert WithExits(st.scopes, []) == st.scopes by { assert Top(st).exits + [] == Top(st).exits; }
    } else {
      var next := Led(a, st);
      ArmBegins(a, st, header);
      var body := Place(a.body, next.g, next.current, header);
      StackPlaces(a.body, next, header);
      var after := Advance(next, body);
      ArmGoesOn(a, st, body, header);
      StackArms(a.rest, after, pre, header);
      ProcessArm(st, a, next, after);
      ArmsTogether(a, st, after, body, header);
    }
  }

  /** The state once an arm's leading instruction has been processed. */
  function Led(a: Arms, st: State): State
    requires a.Arm? && Branching(st.scopes)
  {
    State(AddEdge(NewBlock(st.g, [a.lead]), Top(st).pre, ArmsKind(st), |st.g|), |st.g|, WithExits(st.scopes, [st.current]))
  }

  function ArmsKind(st: State): EdgeKind
    requires st.scopes != []
  {
    if Top(st).IfScope? then ConditionalFalse else EdgeKind.SwitchCase
  }

  lemma ArmBegins(a: Arms, st: State, header: nat)
    requires a.Arm? && Knows(st, header) && Branching(st.scopes) && Top(st).pre < |st.g| && Top(st).pre != st.current
    requires ScopedArms(a, if Top(st).IfScope? then ConditionalAlternate else FlowEffect.SwitchCase, InLoop(st.scopes), Breakable(st.scopes))
    ensures ProcessAll(st, [a.lead]) == Ok(Led(a, st)) && Knows(Led(a, st), header) && Branching(Led(a, st).scopes)
    ensures Scoped(a.body, InLoop(Led(a, st).scopes), Breakable(Led(a, st).scopes))
  {
    hide Knows, InLoop, Breakable, Scoped, ProcessAll, Process;
    ArmStep(st, a.lead, header);
    ProcessOne(st, a.lead);
  }

  /** The state between an arm and the next one. */
  lemma ArmGoesOn(a: Arms, st: State, body: Placed, header: nat)
    requires a.Arm? && Knows(st, header) && Branching(st.scopes) && Top(st).pre < |st.g| && Top(st).pre != st.current
    requires ScopedArms(a, if Top(st).IfScope? then ConditionalAlternate else FlowEffect.SwitchCase, InLoop(st.scopes), Breakable(st.scopes))
    requires body == Place(a.body, Led(a, st).g, |st.g|, header)
    ensures var after := Advance(Led(a, st), body);
            && Knows(after, header) && Branching(after.scopes) && Top(after).pre == Top(st).pre < |after.g|
            && Top(after).pre != after.current && Top(after).IfScope? == Top(st).IfScope?
            && ScopedArms(a.rest, if Top(after).IfScope? then ConditionalAlternate else FlowEffect.SwitchCase, InLoop(after.scopes),
                          Breakable(after.scopes))
  {
    hide InLoop, Breakable, Scoped, Process, Place, AddBreaks;
    var next := Led(a, st);
    ArmStep(st, a.lead, header);
    PlaceFramed(a.body, next.g, next.current, header);
    KnowsNext(next, header, body);
    StillBranching(next.scopes, body.breaks);
    assert (body.breaks + [body.current])[|body.breaks|] == body.current;
  }

  /** What an arm and the arms behind it leave behind. */
  lemma ArmsTogether(a: Arms, st: State, after: State, body: Placed, header: nat)
    requires a.Arm? && Branching(st.scopes) && body == Place(a.body, Led(a, st).g, |st.g|, header) && after == Advance(Led(a, st), body)
    requires Branching(after.scopes)
    ensures var rest := PlaceArms(a.rest, body.g, Top(st).pre, ArmsKind(st), body.current, header);
            var p := PlaceArms(a, st.g, Top(st).pre, ArmsKind(st), st.current, header);
            && Branching(AddBreaks(after.scopes, rest.breaks)) && Branching(AddBreaks(st.scopes, p.breaks))
            && AdvanceArms(after, rest) == AdvanceArms(st, p)
  {
    hide Place, AddBreaks, WithExits;
    ArmScopes(st.scopes, st.current, body.breaks, PlaceArms(a.rest, body.g, Top(st).pre, ArmsKind(st), body.current, header));
  }

  lemma ProcessArm(st: State, a: Arms, next: State, after: State)
    requires a.Arm? && ProcessAll(st, [a.lead]) == Ok(next) && ProcessAll(next, Flatten(a.body)) == Ok(after)
    ensures ProcessAll(st, FlattenArms(a)) == ProcessAll(after, FlattenArms(a.rest))
  {
    ProcessAppend(st, [a.lead], Flatten(a.body));
    ProcessAppend(st, [a.lead] + Flatten(a.body), FlattenArms(a.rest));
    assert FlattenArms(a) == [a.lead] + Flatten(a.body) + FlattenArms(a.rest);
  }

  /** What the scopes hold after an arm and the arms behind it. */
  lemma ArmScopes(scopes: seq<Scope>, current: nat, breaks: seq<nat>, rest: PlacedArms)
    requires Branching(scopes)
    ensures var next := AddBreaks(WithExits(scopes, [current]), breaks);
            && Branching(WithExits(scopes, [current])) && Branching(next) && Branching(AddBreaks(next, rest.breaks))
            && Branching(AddBreaks(scopes, breaks + rest.breaks))
            && WithExits(AddBreaks(next, rest.breaks), rest.exits) ==
               WithExits(AddBreaks(scopes, breaks + rest.breaks), [current] + rest.exits)
  {
    ExitsThenBreaks(scopes, [current], breaks + rest.breaks);
    AddBreaksTwice(WithExits(scopes, [current]), breaks, rest.breaks);
    StillBranching(WithExits(scopes, [current]), breaks);
    ExitsTwice(AddBreaks(scopes, breaks + rest.breaks), [current], rest.exits);
  }

  lemma EdgesToHas(first: (EdgeKind, nat), kind: EdgeKind, starts: seq<nat>)
    requires first.0 != kind
    ensures (exists i :: 0 <= i < |[first] + EdgesTo(kind, starts)| && ([first] + EdgesTo(kind, starts))[i].0 == kind) <==> starts != []
  {
    if starts != [] {
      assert ([first] + EdgesTo(kind, starts))[1].0 == kind;
    }
  }

  lemma CloseIfStep(st: State, g: Graph, current: nat, t: Tok, body: Placed, arms: PlacedArms, starts: seq<nat>, outer: seq<Scope>)
    requires current < |g| && g[current].out == []
    requires Framed(Opened(g, current, t, ConditionalTrue), |g|, body)
    requires FramedArms(body.g, current, body.current, arms, ConditionalFalse, starts)
    requires st == State(arms.g, arms.current, outer + [IfScope(current, arms.exits)])
    ensures CloseIf(st) == State(IfGraph(arms, current, starts != []), |arms.g|, outer)
  {
    RegionFramed(g, current, t, ConditionalTrue, body, arms, ConditionalFalse, starts);
    SplitEnds(|g|, arms, body.breaks);
    MergedFacts(arms.g, Joined(arms));
    assert current !in Joined(arms);
    EdgesToHas((ConditionalTrue, |g|), ConditionalFalse, starts);
    assert Merged(arms.g, Joined(arms))[current] == arms.g[current];
    assert Outer(st) == outer;
  }

  lemma CloseSwitchStep(st: State, arms: PlacedArms, current: nat, breaks: seq<nat>, outer: seq<Scope>)
    requires st == State(arms.g, arms.current, outer + [SwitchScope(current, arms.exits, breaks)])
    ensures CloseSwitch(st) == State(SwitchGraph(arms, breaks), |arms.g|, outer)
  {
    assert Outer(st) == outer;
  }

  function RegionScope(c: Code, current: nat): Scope
    requires c.If? || c.Switch?
  {
    if c.If? then IfScope(current, []) else SwitchScope(current, [], [])
  }

  function Begun(c: Code, st: State): State
    requires c.If? || c.Switch?
  {
    State(Opened(st.g, st.current, c.open, FirstKind(c)), |st.g|, st.scopes + [RegionScope(c, st.current)])
  }

  lemma RegionBegins(c: Code, st: State, header: nat)
    requires (c.If? || c.Switch?) && Knows(st, header) && Scoped(c, InLoop(st.scopes), Breakable(st.scopes))
    ensures ProcessAll(st, [c.open]) == Ok(Begun(c, st)) && Knows(Begun(c, st), header)
    ensures Scoped(c.body, InLoop(Begun(c, st).scopes), Breakable(Begun(c, st).scopes))
    ensures ScopedArms(c.arms, if c.If? then ConditionalAlternate else FlowEffect.SwitchCase, InLoop(Begun(c, st).scopes),
                       Breakable(Begun(c, st).scopes))
  {
    hide Place, PlaceArms, InLoop, Breakable, ProcessAll;
    PushScope(st.scopes, RegionScope(c, st.current));
    ProcessOne(st, c.open);
  }

  /** A conditional or a switch, from its opening to its closing instruction. */
  lemma {:induction false} StackRegion(c: Code, st: State, header: nat)
    requires (c.If? || c.Switch?) && Knows(st, header) && Scoped(c, InLoop(st.scopes), Breakable(st.scopes))
    ensures ProcessAll(st, FlattenHead(c)) == Ok(Advance(st, PlaceHead(c, st.g, st.current, header)))
    decreases c, -1
  {
    hide Place, PlaceArms, PlaceHead, InLoop, Breakable, ProcessAll, Process, AddBreaks, Scoped, ScopedArms;
    var begun := Begun(c, st);
    RegionBegins(c, st, header);
    var body, arms := BodyOf(c, st.g, st.current, header), ArmsOf(c, st.g, st.current, header);
    RegionPlaced(c, st.g, st.current, header);
    StackPlaces(c.body, begun, header);
    KnowsNext(begun, header, body);
    var after := Advance(begun, body);
    StillBranching(begun.scopes, body.breaks);
    StackArms(c.arms, after, st.current, header);
    RegionScopes(st.scopes, RegionScope(c, st.current), body.breaks, arms);
    RegionCloses(c, st, header, AdvanceArms(after, arms));
    ProcessRegion(st, c, begun, after, AdvanceArms(after, arms));
  }

  lemma ProcessRegion(st: State, c: Code, begun: State, after: State, ends: State)
    requires c.If? || c.Switch?
    requires ProcessAll(st, [c.open]) == Ok(begun) && ProcessAll(begun, Flatten(c.body)) == Ok(after)
    requires ProcessAll(after, FlattenArms(c.arms)) == Ok(ends)
    ensures ProcessAll(st, FlattenHead(c)) == Process(ends, c.close)
  {
    ProcessAppend(st, [c.open], Flatten(c.body));
    ProcessAppend(st, [c.open] + Flatten(c.body), FlattenArms(c.arms));
    ProcessAppend(st, [c.open] + Flatten(c.body) + FlattenArms(c.arms), [c.close]);
    ProcessOne(ends, c.close);
  }

  lemma RegionScopes(scopes: seq<Scope>, scope: Scope, breaks: seq<nat>, arms: PlacedArms)
    requires !scope.LoopScope? && scope.exits == [] && (scope.SwitchScope? ==> scope.breaks == [])
    ensures var after := AddBreaks(scopes + [scope], breaks);
            && Branching(after) && Branching(AddBreaks(after, arms.breaks))
            && WithExits(AddBreaks(after, arms.breaks), arms.exits) ==
               if scope.IfScope? then AddBreaks(scopes, breaks + arms.breaks) + [IfScope(scope.pre, arms.exits)]
               else scopes + [SwitchScope(scope.pre, arms.exits, breaks + arms.breaks)]
  {
    var all := breaks + arms.breaks;
    AddBreaksTwice(scopes + [scope], breaks, arms.breaks);
    StillBranching(scopes + [scope], breaks);
    StillBranching(AddBreaks(scopes + [scope], breaks), arms.breaks);
    AddBreaksTop(scopes, scope, all);
    assert [] + arms.exits == arms.exits && [] + all == all;
    WithExitsTop(if scope.IfScope? then AddBreaks(scopes, all) else scopes,
                 if scope.IfScope? then scope else SwitchScope(scope.pre, scope.exits, scope.breaks + all), arms.exits);
  }

  lemma WithExitsTop(scopes: seq<Scope>, s: Scope, exits: seq<nat>)
    requires !s.LoopScope?
    ensures WithExits(scopes + [s], exits) == scopes + [s.(exits := s.exits + exits)]
  {
  }

  lemma RegionCloses(c: Code, st: State, header: nat, ends: State)
    requires (c.If? || c.Switch?) && Knows(st, header) && Scoped(c, InLoop(st.scopes), Breakable(st.scopes))
    requires var body, arms := BodyOf(c, st.g, st.current, header), ArmsOf(c, st.g, st.current, header);
             ends == State(arms.g, arms.current,
                           if c.If? then AddBreaks(st.scopes, body.breaks + arms.breaks) + [IfScope(st.current, arms.exits)]
                           else st.scopes + [SwitchScope(st.current, arms.exits, body.breaks + arms.breaks)])
    ensures Process(ends, c.close) == Ok(Advance(st, PlaceHead(c, st.g, st.current, header)))
  {
    hide Place, PlaceArms, InLoop, Breakable, Framed, FramedArms, Opened, AddBreaks;
    var body, arms := BodyOf(c, st.g, st.current, header), ArmsOf(c, st.g, st.current, header);
    RegionPlaced(c, st.g, st.current, header);
    if c.If? {
      CloseIfStep(ends, st.g, st.current, c.open, body, arms, Starts(c.arms, body.g, st.current, ConditionalFalse, header),
                  AddBreaks(st.scopes, body.breaks + arms.breaks));
    } else {
      CloseSwitchStep(ends, arms, st.current, body.breaks + arms.breaks, st.scopes);
      AddNoBreaks(st.scopes);
    }
  }

  lemma {:induction false} StackLoop(c: Code, st: State, header: nat)
    requires c.Loop? && Knows(st, header) && Scoped(c, InLoop(st.scopes), Breakable(st.scopes))
    ensures ProcessAll(st, FlattenHead(c)) == Ok(Advance(st, PlaceHead(c, st.g, st.current, header)))
    decreases c, -1
  {
    hide Place, PlaceArms, PlaceHead, Opened, AddBreaks, Knows, InLoop, Breakable, ProcessAll, Process;
    var scope := LoopScope(|st.g|, []);
    var begun := State(Opened(st.g, st.current, c.open, EdgeKind.Fallthrough), |st.g|, st.scopes + [scope]);
    LoopBegins(c, st, header);
    StackPlaces(c.body, begun, |st.g|);
    var body := Place(c.body, begun.g, |st.g|, |st.g|);
    var ends := Advance(begun, body);
    LoopCloses(c, st, body, header);
    ProcessAppend(st, [c.open], Flatten(c.body));
    ProcessAppend(st, [c.open] + Flatten(c.body), [c.close]);
    ProcessOne(ends, c.close);
  }

  lemma LoopBegins(c: Code, st: State, header: nat)
    requires c.Loop? && Knows(st, header) && Scoped(c, InLoop(st.scopes), Breakable(st.scopes))
    ensures var begun := State(Opened(st.g, st.current, c.open, EdgeKind.Fallthrough), |st.g|, st.scopes + [LoopScope(|st.g|, [])]);
            && ProcessAll(st, [c.open]) == Ok(begun) && Knows(begun, |st.g|)
            && Scoped(c.body, InLoop(begun.scopes), Breakable(begun.scopes))
  {
    hide ProcessAll, InLoop, Breakable;
    PushScope(st.scopes, LoopScope(|st.g|, []));
    ProcessOne(st, c.open);
  }

  lemma LoopCloses(c: Code, st: State, body: Placed, header: nat)
    requires c.Loop? && c.close.effect == LoopClose && body == Place(c.body, Opened(st.g, st.current, c.open, EdgeKind.Fallthrough), |st.g|, |st.g|)
    ensures Process(State(body.g, body.current, AddBreaks(st.scopes + [LoopScope(|st.g|, [])], body.breaks)), c.close)
            == Ok(Advance(st, PlaceHead(c, st.g, st.current, header)))
  {
    hide Place, AddBreaks;
    var scope := LoopScope(|st.g|, []);
    AddBreaksTop(st.scopes, scope, body.breaks);
    assert [] + body.breaks == body.breaks;
    AddNoBreaks(st.scopes);
    assert (st.scopes + [LoopScope(|st.g|, body.breaks)])[..|st.scopes|] == st.scopes;
  }
}
