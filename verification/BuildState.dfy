/** The builder as it runs: a graph, a current block and a scope stack, updated one instruction at a time. */
module BuildStates {
  import opened EdgeKinds
  import opened StructuredCode
  import opened Wrappers
  import opened Builder
  import opened BuilderRuns

  predicate AllBelow(blocks: seq<nat>, n: nat) { forall i :: 0 <= i < |blocks| ==> blocks[i] < n }

  predicate ScopeIn(s: Scope, n: nat) {
    match s
    case IfScope(pre, exits) => pre < n && AllBelow(exits, n)
    case LoopScope(header, breaks) => header < n && AllBelow(breaks, n)
    case SwitchScope(pre, exits, breaks) => pre < n && AllBelow(exits, n) && AllBelow(breaks, n)
  }

  /** Every block the state names is in the graph. */
  predicate WellState(st: State) {
    st.current < |st.g| && forall i :: 0 <= i < |st.scopes| ==> ScopeIn(st.scopes[i], |st.g|)
  }

  predicate EdgesIn(g: Graph) {
    forall b, e :: 0 <= b < |g| && 0 <= e < |g[b].out| ==> g[b].out[e].1 < |g|
  }

  lemma {:induction false} AddEdgesIn(g: Graph, sources: seq<nat>, kind: EdgeKind, to: nat)
    requires EdgesIn(g) && to < |g|
    ensures |AddEdges(g, sources, kind, to)| == |g| && EdgesIn(AddEdges(g, sources, kind, to))
  {
    if sources != [] {
      AddEdgesIn(g, sources[..|sources| - 1], kind, to);
    }
  }

  lemma {:induction false} AddEdgesLength(g: Graph, sources: seq<nat>, kind: EdgeKind, to: nat)
    ensures |AddEdges(g, sources, kind, to)| == |g|
  {
    if sources != [] {
      AddEdgesLength(g, sources[..|sources| - 1], kind, to);
    }
  }

  lemma {:induction false} RecordIn(scopes: seq<Scope>, b: nat, n: nat)
    requires Breakable(scopes) && b < n && forall i :: 0 <= i < |scopes| ==> ScopeIn(scopes[i], n)
    ensures |RecordBreak(scopes, b)| == |scopes|
    ensures forall i :: 0 <= i < |scopes| ==> ScopeIn(RecordBreak(scopes, b)[i], n)
  {
    if scopes[|scopes| - 1].IfScope? {
      RecordIn(scopes[..|scopes| - 1], b, n);
    }
  }

  lemma {:induction false} HeaderIn(scopes: seq<Scope>, n: nat)
    requires InLoop(scopes) && forall i :: 0 <= i < |scopes| ==> ScopeIn(scopes[i], n)
    ensures LoopHeader(scopes) < n
  {
    if !scopes[|scopes| - 1].LoopScope? {
      HeaderIn(scopes[..|scopes| - 1], n);
    }
  }

  ghost predicate AllIn(st: State) { WellState(st) && EdgesIn(st.g) }

  lemma PlainIn(st: State, t: Tok)
    requires AllIn(st) && Process(st, t).Ok? && !IsMarker(t)
    requires t.effect !in {Break, ConditionalBreak, Continue, ConditionalContinue}
    ensures AllIn(Process(st, t).value)
  {
  }

  lemma LeaveIn(st: State, t: Tok)
    requires AllIn(st) && Process(st, t).Ok? && t.effect in {Break, ConditionalBreak, Continue, ConditionalContinue}
    ensures AllIn(Process(st, t).value)
  {
    if t.effect in {Break, ConditionalBreak} {
      RecordIn(st.scopes, if t.effect == Break then st.current else |st.g|, |Process(st, t).value.g|);
    } else {
      HeaderIn(st.scopes, |st.g|);
    }
  }

  lemma OpenIn(st: State, t: Tok)
    requires AllIn(st) && Process(st, t).Ok? && t.effect in {ConditionalOpen, SwitchOpen, LoopOpen}
    ensures AllIn(Process(st, t).value)
  {
  }

  lemma ArmIn(st: State, t: Tok)
    requires AllIn(st) && Process(st, t).Ok? && t.effect in {ConditionalAlternate, FlowEffect.SwitchCase}
    ensures AllIn(Process(st, t).value)
  {
  }

  lemma CloseBranchIn(st: State, t: Tok)
    requires AllIn(st) && Process(st, t).Ok? && t.effect in {ConditionalClose, SwitchClose}
    ensures AllIn(Process(st, t).value)
  {
    hide AddEdges;
    var top, last := Top(st), |st.g|;
    var exits := top.exits + [st.current];
    AddEdgesIn(NewBlock(st.g, []), exits, EdgeKind.Fallthrough, last);
    if t.effect == SwitchClose {
      AddEdgesIn(AddEdges(NewBlock(st.g, []), exits, EdgeKind.Fallthrough, last), top.breaks, Unconditional, last);
    }
  }

  lemma CloseLoopIn(st: State, t: Tok)
    requires AllIn(st) && Process(st, t).Ok? && t.effect == LoopClose
    ensures AllIn(Process(st, t).value)
  {
    var top, last := Top(st), |st.g|;
    AddEdgesIn(NewBlock(AddEdge(st.g, st.current, Back, top.header), []), top.breaks, Unconditional, last);
  }

  /** Processing an instruction never leaves the graph. */
  lemma StepIn(st: State, t: Tok)
    requires AllIn(st) && Process(st, t).Ok?
    ensures AllIn(Process(st, t).value)
  {
    if t.effect in {Break, ConditionalBreak, Continue, ConditionalContinue} {
      LeaveIn(st, t);
    } else if !IsMarker(t) {
      PlainIn(st, t);
    } else if t.effect == LoopClose {
      CloseLoopIn(st, t);
    } else if t.effect in {ConditionalClose, SwitchClose} {
      CloseBranchIn(st, t);
    } else if t.effect in {ConditionalAlternate, FlowEffect.SwitchCase} {
      ArmIn(st, t);
    } else {
      OpenIn(st, t);
    }
  }

  /** An instruction that leads its block may be stored after the edge to it. */
  lemma LeadLater(g: Graph, pre: nat, kind: EdgeKind, t: Tok)
    requires pre < |g|
    ensures Push(AddEdge(NewBlock(g, []), pre, kind, |g|), |g|, t) == AddEdge(NewBlock(g, [t]), pre, kind, |g|)
  {
    assert [] + [t] == [t];
  }

  lemma {:induction false} RecordAt(scopes: seq<Scope>, i: nat, b: nat)
    requires i < |scopes| && !scopes[i].IfScope? && forall j :: i < j < |scopes| ==> scopes[j].IfScope?
    ensures Breakable(scopes) && RecordBreak(scopes, b) == scopes[i := scopes[i].(breaks := scopes[i].breaks + [b])]
  {
    var n := |scopes| - 1;
    if i < n {
      RecordAt(scopes[..n], i, b);
    }
  }

  lemma {:induction false} NoneBreakable(scopes: seq<Scope>)
    requires forall j :: 0 <= j < |scopes| ==> scopes[j].IfScope?
    ensures !Breakable(scopes)
  {
    if scopes != [] {
      NoneBreakable(scopes[..|scopes| - 1]);
    }
  }

  class BuildState {
    var g: Graph
    var current: nat
    var scopes: seq<Scope>

    ghost function View(): State
      reads this
    {
      State(g, current, scopes)
    }

    ghost predicate Valid()
      reads this
    {
      AllIn(View())
    }

    constructor ()
      ensures View() == Initial() && Valid()
    {
      g, current, scopes := [Node([], [])], 0, [];
    }

    method Push(t: Tok)
      requires current < |g|
      modifies this`g
      ensures g == Builder.Push(old(g), current, t)
    {
      g := g[current := g[current].(insts := g[current].insts + [t])];
    }

    method NewBlock() returns (b: nat)
      modifies this`g
      ensures b == |old(g)| && g == Builder.NewBlock(old(g), [])
    {
      b := |g|;
      g := g + [Node([], [])];
    }

    method AddEdge(from: nat, to: nat, kind: EdgeKind)
      requires from < |g|
      modifies this`g
      ensures g == Builder.AddEdge(old(g), from, kind, to)
    {
      g := g[from := g[from].(out := g[from].out + [(kind, to)])];
    }

    method AddEdgesFrom(sources: seq<nat>, to: nat, kind: EdgeKind)
      requires AllBelow(sources, |g|)
      modifies this`g
      ensures g == AddEdges(old(g), sources, kind, to)
    {
      for i := 0 to |sources|
        invariant g == AddEdges(old(g), sources[..i], kind, to) && |g| == |old(g)|
      {
        assert sources[..i + 1][..i] == sources[..i];
        AddEdge(sources[i], to, kind);
      }
      assert sources[..|sources|] == sources;
    }

    method EndBlock(t: Tok)
      requires current < |g|
      modifies this`g, this`current
      ensures View() == Builder.EndBlock(old(View()), t)
    {
      Push(t);
      current := NewBlock();
    }

    method OpenConditional(t: Tok)
      requires current < |g|
      modifies this
      ensures View() == OpenRegion(old(View()), t, ConditionalTrue, IfScope(old(current), []))
    {
      Push(t);
      var trueBlock := NewBlock();
      AddEdge(current, trueBlock, ConditionalTrue);
      scopes := scopes + [IfScope(current, [])];
      current := trueBlock;
    }

    method AlternateConditional(t: Tok) returns (r: Result<(), BuildError>)
      requires Valid()
      modifies this
      ensures if old(scopes) == [] || !Top(old(View())).IfScope? then r == Err(UnmatchedElse)
              else r == Ok(()) && View() == NextArm(old(View()), t, ConditionalFalse)
    {
      var n := |scopes| - 1;
      if scopes == [] || !scopes[n].IfScope? {
        return Err(UnmatchedElse);
      }
      scopes := scopes[n := IfScope(scopes[n].pre, scopes[n].exits + [current])];
      var alternate := NewBlock();
      AddEdge(scopes[n].pre, alternate, ConditionalFalse);
      current := alternate;
      LeadLater(old(g), scopes[n].pre, ConditionalFalse, t);
      Push(t);
      r := Ok(());
    }

    method CloseConditional() returns (r: Result<(), BuildError>)
      requires Valid()
      modifies this
      ensures if old(scopes) == [] || !Top(old(View())).IfScope? then r == Err(UnmatchedEndIf)
              else r == Ok(()) && View() == CloseIf(old(View()))
    {
      var n := |scopes| - 1;
      if scopes == [] || !scopes[n].IfScope? {
        return Err(UnmatchedEndIf);
      }
      var pre, exits := scopes[n].pre, scopes[n].exits + [current];
      scopes := scopes[..n];
      var merge := NewBlock();
      AddEdgesFrom(exits, merge, EdgeKind.Fallthrough);
      AddEdgesLength(Builder.NewBlock(old(g), []), exits, EdgeKind.Fallthrough, merge);
      if !(exists i :: 0 <= i < |g[pre].out| && g[pre].out[i].0 == ConditionalFalse) {
        AddEdge(pre, merge, ConditionalFalse);
      }
      current := merge;
      r := Ok(());
    }

    method OpenSwitch(t: Tok)
      requires current < |g|
      modifies this
      ensures View() == OpenRegion(old(View()), t, EdgeKind.SwitchCase, SwitchScope(old(current), [], []))
    {
      Push(t);
      var firstCase := NewBlock();
      AddEdge(current, firstCase, EdgeKind.SwitchCase);
      scopes := scopes + [SwitchScope(current, [], [])];
      current := firstCase;
    }

    method AddSwitchCase(t: Tok) returns (r: Result<(), BuildError>)
      requires Valid()
      modifies this
      ensures if old(scopes) == [] || !Top(old(View())).SwitchScope? then r == Err(UnmatchedSwitchCase)
              else r == Ok(()) && View() == NextArm(old(View()), t, EdgeKind.SwitchCase)
    {
      var n := |scopes| - 1;
      if scopes == [] || !scopes[n].SwitchScope? {
        return Err(UnmatchedSwitchCase);
      }
      scopes := scopes[n := SwitchScope(scopes[n].pre, scopes[n].exits + [current], scopes[n].breaks)];
      var caseBlock := NewBlock();
      AddEdge(scopes[n].pre, caseBlock, EdgeKind.SwitchCase);
      current := caseBlock;
      LeadLater(old(g), scopes[n].pre, EdgeKind.SwitchCase, t);
      Push(t);
      r := Ok(());
    }

    method CloseSwitch() returns (r: Result<(), BuildError>)
      requires Valid()
      modifies this
      ensures if old(scopes) == [] || !Top(old(View())).SwitchScope? then r == Err(UnmatchedEndSwitch)
              else r == Ok(()) && View() == Builder.CloseSwitch(old(View()))
    {
      var n := |scopes| - 1;
      if scopes == [] || !scopes[n].SwitchScope? {
        return Err(UnmatchedEndSwitch);
      }
      var exits, breaks := scopes[n].exits + [current], scopes[n].breaks;
      scopes := scopes[..n];
      var merge := NewBlock();
      AddEdgesFrom(exits, merge, EdgeKind.Fallthrough);
      AddEdgesLength(Builder.NewBlock(old(g), []), exits, EdgeKind.Fallthrough, merge);
      AddEdgesFrom(breaks, merge, Unconditional);
      current := merge;
      r := Ok(());
    }

    method OpenLoop(t: Tok)
      requires current < |g|
      modifies this
      ensures View() == OpenRegion(old(View()), t, EdgeKind.Fallthrough, LoopScope(|old(g)|, []))
    {
      Push(t);
      var header := NewBlock();
      AddEdge(current, header, EdgeKind.Fallthrough);
      scopes := scopes + [LoopScope(header, [])];
      current := header;
    }

    method CloseLoop() returns (r: Result<(), BuildError>)
      requires Valid()
      modifies this
      ensures if old(scopes) == [] || !Top(old(View())).LoopScope? then r == Err(UnmatchedEndLoop)
              else r == Ok(()) && View() == Builder.CloseLoop(old(View()))
    {
      var n := |scopes| - 1;
      if scopes == [] || !scopes[n].LoopScope? {
        return Err(UnmatchedEndLoop);
      }
      var header, breaks := scopes[n].header, scopes[n].breaks;
      scopes := scopes[..n];
      AddEdge(current, header, Back);
      var postLoop := NewBlock();
      AddEdgesFrom(breaks, postLoop, Unconditional);
      current := postLoop;
      r := Ok(());
    }

    /** Records `b` in the innermost loop or switch. */
    method RecordBreak(b: nat) returns (found: bool)
      modifies this`scopes
      ensures found == Breakable(old(scopes))
      ensures scopes == if found then Builder.RecordBreak(old(scopes), b) else old(scopes)
    {
      var i := |scopes|;
      while i > 0
        invariant 0 <= i <= |scopes| && scopes == old(scopes)
        invariant forall j :: i <= j < |scopes| ==> scopes[j].IfScope?
      {
        i := i - 1;
        if !scopes[i].IfScope? {
          RecordAt(scopes, i, b);
          scopes := scopes[i := scopes[i].(breaks := scopes[i].breaks + [b])];
          return true;
        }
      }
      NoneBreakable(scopes);
      found := false;
    }

    /** The header of the innermost loop, if there is one. */
    method LoopHeader() returns (found: bool, header: nat)
      ensures found == InLoop(scopes) && (found ==> header == Builder.LoopHeader(scopes))
    {
      var i := |scopes|;
      assert scopes[..i] == scopes;
      while i > 0
        invariant 0 <= i <= |scopes| && InLoop(scopes) == InLoop(scopes[..i])
        invariant InLoop(scopes) ==> Builder.LoopHeader(scopes) == Builder.LoopHeader(scopes[..i])
      {
        i := i - 1;
        assert scopes[..i + 1][..i] == scopes[..i] && scopes[..i + 1][i] == scopes[i];
        if scopes[i].LoopScope? {
          return true, scopes[i].header;
        }
      }
      found, header := false, 0;
    }

    method AddBreak(t: Tok) returns (r: Result<(), BuildError>)
      requires Valid() && t.effect == Break
      modifies this
      ensures Did(Builder.Process(old(View()), t), r)
    {
      Push(t);
      var found := RecordBreak(current);
      if !found {
        return Err(BreakOutsideScope);
      }
      current := NewBlock();
      r := Ok(());
    }

    /** The result is what the specification says, and so is the state unless there was an error. */
    ghost predicate Did(expected: Result<State, BuildError>, r: Result<(), BuildError>)
      reads this
    {
      if expected.Ok? then r == Ok(()) && View() == expected.value else r == Err(expected.error)
    }

    method AddConditionalBreak(t: Tok) returns (r: Result<(), BuildError>)
      requires Valid() && t.effect == ConditionalBreak
      modifies this
      ensures Did(Builder.Process(old(View()), t), r)
    {
      Push(t);
      var breakBlock := NewBlock();
      var continuation := NewBlock();
      AddEdge(current, breakBlock, ConditionalTrue);
      AddEdge(current, continuation, ConditionalFalse);
      var found := RecordBreak(breakBlock);
      if !found {
        return Err(BreakOutsideScope);
      }
      current := continuation;
      r := Ok(());
    }

    method AddContinue(t: Tok) returns (r: Result<(), BuildError>)
      requires Valid() && t.effect == Continue
      modifies this
      ensures Did(Builder.Process(old(View()), t), r)
    {
      Push(t);
      var found, header := LoopHeader();
      if !found {
        return Err(ContinueOutsideLoop);
      }
      AddEdge(current, header, Back);
      current := NewBlock();
      ghost var st := old(View());
      assert g == Builder.AddEdge(Builder.EndBlock(st, t).g, st.current, Back, header);
      r := Ok(());
    }

    method AddConditionalContinue(t: Tok) returns (r: Result<(), BuildError>)
      requires Valid() && t.effect == ConditionalContinue
      modifies this
      ensures Did(Builder.Process(old(View()), t), r)
    {
      Push(t);
      var continuation := NewBlock();
      var found, header := LoopHeader();
      if !found {
        return Err(ContinueOutsideLoop);
      }
      AddEdge(current, header, ConditionalTrue);
      AddEdge(current, continuation, ConditionalFalse);
      current := continuation;
      r := Ok(());
    }

    method AddConditionalReturn(t: Tok)
      requires current < |g|
      modifies this
      ensures View() == Fork(old(View()), t)
    {
      Push(t);
      var returnBlock := NewBlock();
      var continuation := NewBlock();
      AddEdge(current, returnBlock, ConditionalTrue);
      AddEdge(current, continuation, ConditionalFalse);
      current := continuation;
    }

    method AddLabel(t: Tok)
      requires current < |g| && t.effect == Label
      modifies this
      ensures Builder.Process(old(View()), t) == Ok(View())
    {
      var labelBlock := NewBlock();
      AddEdge(current, labelBlock, EdgeKind.Fallthrough);
      LeadLater(old(g), current, EdgeKind.Fallthrough, t);
      current := labelBlock;
      Push(t);
    }

    method AddConditionalJump(t: Tok)
      requires current < |g| && t.effect == ConditionalJump
      modifies this
      ensures Builder.Process(old(View()), t) == Ok(View())
    {
      Push(t);
      var continuation := NewBlock();
      AddEdge(current, continuation, ConditionalFalse);
      current := continuation;
    }

    method Process(t: Tok) returns (r: Result<(), BuildError>)
      requires Valid()
      modifies this
      ensures Did(Builder.Process(old(View()), t), r)
    {
      r := Ok(());
      match t.effect
      case Declaration => Push(t);
      case Fallthrough => Push(t);
      case Call => Push(t);
      case ConditionalCall => Push(t);
      case IndirectCall => Push(t);
      case MayThrow => Push(t);
      case ConditionalOpen => OpenConditional(t);
      case ConditionalAlternate => r := AlternateConditional(t);
      case ConditionalClose => r := CloseConditional();
      case SwitchOpen => OpenSwitch(t);
      case SwitchCase => r := AddSwitchCase(t);
      case SwitchClose => r := CloseSwitch();
      case LoopOpen => OpenLoop(t);
      case LoopClose => r := CloseLoop();
      case Break => r := AddBreak(t);
      case ConditionalBreak => r := AddConditionalBreak(t);
      case Continue => r := AddContinue(t);
      case ConditionalContinue => r := AddConditionalContinue(t);
      case Return => EndBlock(t);
      case Terminate => EndBlock(t);
      case Jump => EndBlock(t);
      case IndirectJump => EndBlock(t);
      case ConditionalReturn => AddConditionalReturn(t);
      case Label => AddLabel(t);
      case ConditionalJump => AddConditionalJump(t);
    }

    method Incoming(b: nat) returns (found: bool)
      ensures found == HasIncoming(g, b)
    {
      found := false;
      for p := 0 to |g|
        invariant forall q, e :: 0 <= q < p && 0 <= e < |g[q].out| ==> g[q].out[e].1 != b
      {
        for e := 0 to |g[p].out|
          invariant forall d :: 0 <= d < e ==> g[p].out[d].1 != b
        {
          if g[p].out[e].1 == b {
            return true;
          }
        }
      }
    }

    method TrimTrailingEmpty()
      requires g != []
      modifies this`g
      ensures g == Trimmed(old(g)) && g != []
    {
      while true
        invariant g != [] && Trimmed(g) == Trimmed(old(g))
        decreases |g|
      {
        var last := |g| - 1;
        if last == 0 || g[last].insts != [] {
          return;
        }
        var incoming := Incoming(last);
        if incoming {
          return;
        }
        g := g[..last];
      }
    }

    method Finish() returns (r: Result<Graph, BuildError>)
      requires Valid()
      modifies this
      ensures r == if old(scopes) != [] then Err(UnclosedScopes(|old(scopes)|)) else Ok(Trimmed(old(g)))
    {
      if scopes != [] {
        return Err(UnclosedScopes(|scopes|));
      }
      TrimTrailingEmpty();
      r := Ok(g);
    }
  }

  /** Every instruction in turn; then the open scopes are counted and the empty tail is trimmed. */
  method Build(ts: seq<Tok>) returns (r: Result<Graph, BuildError>)
    ensures r == BuildOf(ts)
  {
    var state := new BuildState();
    for i := 0 to |ts|
      invariant state.Valid() && fresh(state) && ProcessAll(Initial(), ts[..i]) == Ok(state.View())
    {
      assert ts[..i + 1][..i] == ts[..i];
      ghost var st := state.View();
      var done := state.Process(ts[i]);
      if done.Err? {
        FailsOn(ts, i + 1);
        return Err(done.error);
      }
      StepIn(st, ts[i]);
    }
    assert ts[..|ts|] == ts;
    r := state.Finish();
  }

  /** The first error is the result. */
  lemma {:induction false} FailsOn(ts: seq<Tok>, n: nat)
    requires n <= |ts| && ProcessAll(Initial(), ts[..n]).Err?
    ensures ProcessAll(Initial(), ts) == ProcessAll(Initial(), ts[..n])
    decreases |ts|
  {
    if n == |ts| {
      assert ts[..n] == ts;
    } else {
      assert ts[..|ts| - 1][..n] == ts[..n];
      FailsOn(ts[..|ts| - 1], n);
    }
  }
}
