/** The one-pass builder: a scope stack turns a flat stream into a graph. */
module Builder {
  import opened Wrappers
  import opened EdgeKinds
  import opened StructuredCode

  datatype Node = Node(insts: seq<Tok>, out: seq<(EdgeKind, nat)>)

  /** Blocks by identity, each with its edges in the order they were added. The entry is block 0. */
  type Graph = seq<Node>

  datatype Scope =
    | IfScope(pre: nat, exits: seq<nat>)
    | LoopScope(header: nat, breaks: seq<nat>)
    | SwitchScope(pre: nat, exits: seq<nat>, breaks: seq<nat>)

  datatype BuildError =
    | UnmatchedElse | UnmatchedEndIf | UnmatchedEndSwitch | UnmatchedSwitchCase | UnmatchedEndLoop
    | BreakOutsideScope | ContinueOutsideLoop | UnclosedScopes(remaining: nat)

  datatype State = State(g: Graph, current: nat, scopes: seq<Scope>)

  function Push(g: Graph, b: nat, t: Tok): Graph {
    if b < |g| then g[b := g[b].(insts := g[b].insts + [t])] else g
  }

  function AddEdge(g: Graph, b: nat, kind: EdgeKind, to: nat): Graph {
    if b < |g| then g[b := g[b].(out := g[b].out + [(kind, to)])] else g
  }

  /** A new block, holding the given instructions. */
  function NewBlock(g: Graph, insts: seq<Tok>): Graph { g + [Node(insts, [])] }

  /** An edge of `kind` to `to` out of each of `sources`. */
  function AddEdges(g: Graph, sources: seq<nat>, kind: EdgeKind, to: nat): Graph {
    if sources == [] then g
    else AddEdge(AddEdges(g, sources[..|sources| - 1], kind, to), sources[|sources| - 1], kind, to)
  }

  function Initial(): State { State([Node([], [])], 0, []) }

  function Top(st: State): Scope
    requires st.scopes != []
  {
    st.scopes[|st.scopes| - 1]
  }

  function Outer(st: State): seq<Scope>
    requires st.scopes != []
  {
    st.scopes[..|st.scopes| - 1]
  }

  /** The scopes once `b` has been recorded as leaving the innermost loop or switch. */
  function RecordBreak(scopes: seq<Scope>, b: nat): seq<Scope>
    requires Breakable(scopes)
  {
    var n := |scopes| - 1;
    match scopes[n]
    case IfScope(_, _) => RecordBreak(scopes[..n], b) + [scopes[n]]
    case LoopScope(h, bs) => scopes[n := LoopScope(h, bs + [b])]
    case SwitchScope(p, es, bs) => scopes[n := SwitchScope(p, es, bs + [b])]
  }

  predicate Breakable(scopes: seq<Scope>) {
    scopes != [] && (!scopes[|scopes| - 1].IfScope? || Breakable(scopes[..|scopes| - 1]))
  }

  predicate InLoop(scopes: seq<Scope>) {
    scopes != [] && (scopes[|scopes| - 1].LoopScope? || InLoop(scopes[..|scopes| - 1]))
  }

  /** The header of the innermost loop. */
  function LoopHeader(scopes: seq<Scope>): nat
    requires InLoop(scopes)
  {
    var n := |scopes| - 1;
    if scopes[n].LoopScope? then scopes[n].header else LoopHeader(scopes[..n])
  }

  /** Stores the instruction and goes on in a fresh block. */
  function EndBlock(st: State, t: Tok): State {
    var g := Push(st.g, st.current, t);
    State(NewBlock(g, []), |g|, st.scopes)
  }

  /** Stores the instruction and opens a region whose first block the edge leads to. */
  function OpenRegion(st: State, t: Tok, kind: EdgeKind, scope: Scope): State {
    var g := Push(st.g, st.current, t);
    State(AddEdge(NewBlock(g, []), st.current, kind, |g|), |g|, st.scopes + [scope])
  }

  /** Starts another arm of the region around: the arm so far is one of its exits. */
  function NextArm(st: State, t: Tok, kind: EdgeKind): State
    requires st.scopes != [] && !Top(st).LoopScope?
  {
    var top := Top(st);
    State(AddEdge(NewBlock(st.g, [t]), top.pre, kind, |st.g|), |st.g|, Outer(st) + [top.(exits := top.exits + [st.current])])
  }

  function CloseIf(st: State): State
    requires st.scopes != [] && Top(st).IfScope?
  {
    var top, merge := Top(st), |st.g|;
    var g := AddEdges(NewBlock(st.g, []), top.exits + [st.current], EdgeKind.Fallthrough, merge);
    var hasAlternate := top.pre < |g| && exists i :: 0 <= i < |g[top.pre].out| && g[top.pre].out[i].0 == ConditionalFalse;
    State(if hasAlternate then g else AddEdge(g, top.pre, ConditionalFalse, merge), merge, Outer(st))
  }

  function CloseSwitch(st: State): State
    requires st.scopes != [] && Top(st).SwitchScope?
  {
    var top, merge := Top(st), |st.g|;
    var g := AddEdges(NewBlock(st.g, []), top.exits + [st.current], EdgeKind.Fallthrough, merge);
    State(AddEdges(g, top.breaks, Unconditional, merge), merge, Outer(st))
  }

  function CloseLoop(st: State): State
    requires st.scopes != [] && Top(st).LoopScope?
  {
    var top, post := Top(st), |st.g|;
    State(AddEdges(NewBlock(AddEdge(st.g, st.current, Back, top.header), []), top.breaks, Unconditional, post), post, Outer(st))
  }

  /** Stores the instruction; the true edge leads to `aside`, a fresh block unless given, the false one onwards. */
  function Fork(st: State, t: Tok): State {
    var g := Push(st.g, st.current, t);
    var forked := NewBlock(NewBlock(g, []), []);
    State(AddEdge(AddEdge(forked, st.current, ConditionalTrue, |g|), st.current, ConditionalFalse, |g| + 1), |g| + 1, st.scopes)
  }

  function ForkBack(st: State, t: Tok, header: nat): State {
    var g := Push(st.g, st.current, t);
    State(AddEdge(AddEdge(NewBlock(g, []), st.current, ConditionalTrue, header), st.current, ConditionalFalse, |g|), |g|, st.scopes)
  }

  function Process(st: State, t: Tok): Result<State, BuildError> {
    if IsPlain(t) then Ok(st.(g := Push(st.g, st.current, t)))
    else if IsExit(t) then Ok(EndBlock(st, t))
    else
      match t.effect
      case ConditionalOpen => Ok(OpenRegion(st, t, ConditionalTrue, IfScope(st.current, [])))
      case ConditionalAlternate =>
        if st.scopes == [] || !Top(st).IfScope? then Err(UnmatchedElse) else Ok(NextArm(st, t, ConditionalFalse))
      case ConditionalClose => if st.scopes == [] || !Top(st).IfScope? then Err(UnmatchedEndIf) else Ok(CloseIf(st))
      case SwitchOpen => Ok(OpenRegion(st, t, EdgeKind.SwitchCase, SwitchScope(st.current, [], [])))
      case SwitchCase =>
        if st.scopes == [] || !Top(st).SwitchScope? then Err(UnmatchedSwitchCase) else Ok(NextArm(st, t, EdgeKind.SwitchCase))
      case SwitchClose => if st.scopes == [] || !Top(st).SwitchScope? then Err(UnmatchedEndSwitch) else Ok(CloseSwitch(st))
      case LoopOpen => Ok(OpenRegion(st, t, EdgeKind.Fallthrough, LoopScope(|st.g|, [])))
      case LoopClose => if st.scopes == [] || !Top(st).LoopScope? then Err(UnmatchedEndLoop) else Ok(CloseLoop(st))
      case Break =>
        if !Breakable(st.scopes) then Err(BreakOutsideScope)
        else Ok(EndBlock(st, t).(scopes := RecordBreak(st.scopes, st.current)))
      case ConditionalBreak =>
        if !Breakable(st.scopes) then Err(BreakOutsideScope)
        else Ok(Fork(st, t).(scopes := RecordBreak(st.scopes, |st.g|)))
      case Continue =>
        if !InLoop(st.scopes) then Err(ContinueOutsideLoop)
        else Ok(EndBlock(st, t).(g := AddEdge(EndBlock(st, t).g, st.current, Back, LoopHeader(st.scopes))))
      case ConditionalContinue =>
        if !InLoop(st.scopes) then Err(ContinueOutsideLoop) else Ok(ForkBack(st, t, LoopHeader(st.scopes)))
      case ConditionalReturn => Ok(Fork(st, t))
      case Label =>
        Ok(State(AddEdge(NewBlock(st.g, [t]), st.current, EdgeKind.Fallthrough, |st.g|), |st.g|, st.scopes))
      case ConditionalJump =>
        var g := Push(st.g, st.current, t);
        Ok(State(AddEdge(NewBlock(g, []), st.current, ConditionalFalse, |g|), |g|, st.scopes))
  }

  function ProcessAll(st: State, ts: seq<Tok>): Result<State, BuildError> {
    if ts == [] then Ok(st)
    else
      match ProcessAll(st, ts[..|ts| - 1])
      case Err(e) => Err(e)
      case Ok(before) => Process(before, ts[|ts| - 1])
  }
}
