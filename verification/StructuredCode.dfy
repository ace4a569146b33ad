/** Structured programs: their token streams, when they are well nested, and what they do. */
module StructuredCode {
  datatype FlowEffect =
    | Fallthrough | ConditionalOpen | ConditionalAlternate | ConditionalClose | SwitchOpen | SwitchCase | SwitchClose
    | LoopOpen | LoopClose | Break | ConditionalBreak | Continue | ConditionalContinue | Return | ConditionalReturn
    | Call | ConditionalCall | Terminate | Label | Declaration | Jump | ConditionalJump | IndirectJump | IndirectCall
    | MayThrow

  /** An instruction of the stream. */
  datatype Tok = Tok(effect: FlowEffect, id: int)

  predicate IsPlain(t: Tok) { t.effect in {Fallthrough, Declaration, Call, ConditionalCall, IndirectCall, MayThrow} }

  /** Ends its block. A jump's edges are wired after the build. */
  predicate IsExit(t: Tok) { t.effect in {Return, Terminate, Jump, IndirectJump} }

  /** Opens, divides or closes a region. */
  predicate IsMarker(t: Tok) {
    t.effect in {ConditionalOpen, ConditionalAlternate, ConditionalClose, SwitchOpen, SwitchCase, SwitchClose, LoopOpen, LoopClose}
  }

  /** A sequence of statements. `body` is what comes before the first alternate or case. */
  datatype Code =
    | Done
    | Simple(tok: Tok, next: Code)
    | If(open: Tok, body: Code, arms: Arms, close: Tok, next: Code)
    | Switch(open: Tok, body: Code, arms: Arms, close: Tok, next: Code)
    | Loop(open: Tok, body: Code, close: Tok, next: Code)

  datatype Arms = NoArm | Arm(lead: Tok, body: Code, rest: Arms)

  function Flatten(c: Code): seq<Tok> {
    match c
    case Done => []
    case Simple(t, n) => [t] + Flatten(n)
    case If(o, b, a, e, n) => [o] + Flatten(b) + FlattenArms(a) + [e] + Flatten(n)
    case Switch(o, b, a, e, n) => [o] + Flatten(b) + FlattenArms(a) + [e] + Flatten(n)
    case Loop(o, b, e, n) => [o] + Flatten(b) + [e] + Flatten(n)
  }

  function FlattenArms(a: Arms): seq<Tok> {
    match a
    case NoArm => []
    case Arm(l, b, r) => [l] + Flatten(b) + FlattenArms(r)
  }

  /** A simple statement may stand here: a break needs a loop or switch around it, a continue a loop. */
  predicate SimpleScoped(t: Tok, inLoop: bool, breakable: bool) {
    && !IsMarker(t)
    && (t.effect in {Break, ConditionalBreak} ==> breakable)
    && (t.effect in {Continue, ConditionalContinue} ==> inLoop)
  }

  /** Every marker is the one its place calls for, and every break and continue has its scope. */
  predicate Scoped(c: Code, inLoop: bool, breakable: bool) {
    match c
    case Done => true
    case Simple(t, n) => SimpleScoped(t, inLoop, breakable) && Scoped(n, inLoop, breakable)
    case If(o, b, a, e, n) =>
      && o.effect == ConditionalOpen && e.effect == ConditionalClose
      && Scoped(b, inLoop, breakable) && ScopedArms(a, ConditionalAlternate, inLoop, breakable) && Scoped(n, inLoop, breakable)
    case Switch(o, b, a, e, n) =>
      && o.effect == SwitchOpen && e.effect == SwitchClose
      && Scoped(b, inLoop, true) && ScopedArms(a, SwitchCase, inLoop, true) && Scoped(n, inLoop, breakable)
    case Loop(o, b, e, n) =>
      && o.effect == LoopOpen && e.effect == LoopClose && Scoped(b, true, true) && Scoped(n, inLoop, breakable)
  }

  predicate ScopedArms(a: Arms, lead: FlowEffect, inLoop: bool, breakable: bool) {
    a.Arm? ==> a.lead.effect == lead && Scoped(a.body, inLoop, breakable) && ScopedArms(a.rest, lead, inLoop, breakable)
  }

  /** Which way a branch went. */
  datatype Choice = WhenTrue | WhenFalse | Case

  /** What an execution shows: instructions, and the choices taken between them. */
  datatype Event = Ex(tok: Tok) | Take(choice: Choice)

  /** How an execution of some code ends. `Cut` ends it anywhere: the event sequences that end in a cut are the prefixes
      of executions, those of endless ones included. */
  datatype Outcome = Normal | Broke | Continued | Stopped | Cut

  ghost predicate SimpleRuns(t: Tok, w: seq<Event>, o: Outcome) {
    || (w == [] && o == Cut)
    || if IsPlain(t) || t.effect == Label then w == [Ex(t)] && o == Normal
       else if IsExit(t) then w == [Ex(t)] && o in {Stopped, Cut}
       else match t.effect
            case Break => w == [Ex(t)] && o in {Broke, Cut}
            case Continue => w == [Ex(t)] && o in {Continued, Cut}
            case ConditionalReturn => Forks(t, w, o, Stopped)
            case ConditionalBreak => Forks(t, w, o, Broke)
            case ConditionalContinue => Forks(t, w, o, Continued)
            case ConditionalJump => (w == [Ex(t)] && o == Cut) || (w == [Ex(t), Take(WhenFalse)] && o == Normal)
            case _ => false
  }

  /** Leaves when the condition holds, goes on when it does not. */
  ghost predicate Forks(t: Tok, w: seq<Event>, o: Outcome, away: Outcome) {
    || (w == [Ex(t)] && o == Cut)
    || (w == [Ex(t), Take(WhenTrue)] && o in {away, Cut})
    || (w == [Ex(t), Take(WhenFalse)] && o == Normal)
  }

  /** The executions of a sequence: those of its first statement that do not complete, and those that do followed by
      those of the rest. */
  ghost predicate Runs(c: Code, w: seq<Event>, o: Outcome)
    decreases c, 2, 0
  {
    if c.Done? then w == [] && o in {Normal, Cut}
    else
      || (o != Normal && Head(c, w, o))
      || exists i {:trigger w[..i]} :: 0 <= i <= |w| && Head(c, w[..i], Normal) && Runs(c.next, w[i..], o)
  }

  /** The executions of the first statement alone. */
  ghost predicate Head(c: Code, w: seq<Event>, o: Outcome)
    requires !c.Done?
    decreases c, 1, 0
  {
    match c
    case Simple(t, _) => SimpleRuns(t, w, o)
    case If(open, body, arms, _, _) =>
      || (w == [] && o == Cut)
      || (w != [] && w[0] == Ex(open) &&
          var v := w[1..];
          || (v == [] && o == Cut)
          || (v != [] && v[0] == Take(WhenTrue) && Runs(body, v[1..], o))
          || (arms.NoArm? && v == [Take(WhenFalse)] && o == Normal)
          || RunsArm(arms, WhenFalse, v, o))
    case Switch(open, body, arms, _, _) =>
      || (w == [] && o == Cut)
      || (w != [] && w[0] == Ex(open) &&
          var v := w[1..];
          || (v == [] && o == Cut)
          || (o != Broke && (RunsCase(c, v, o) || (o == Normal && RunsCase(c, v, Broke)))))
    case Loop(open, body, _, _) =>
      || (w == [] && o == Cut)
      || (w != [] && w[0] == Ex(open) && exists n: nat :: Loops(body, n, w[1..], o))
  }

  /** The first arm of a switch runs, or one of the others. */
  ghost predicate RunsCase(c: Code, v: seq<Event>, o: Outcome)
    requires c.Switch?
    decreases c, 0, 0
  {
    (v != [] && v[0] == Take(Case) && Runs(c.body, v[1..], o)) || RunsArm(c.arms, Case, v, o)
  }

  /** One of the arms runs. */
  ghost predicate RunsArm(arms: Arms, choice: Choice, v: seq<Event>, o: Outcome)
    decreases arms, 2, 0
  {
    arms.Arm? &&
    (|| (v == [Take(choice)] && o == Cut)
     || (|v| >= 2 && v[0] == Take(choice) && v[1] == Ex(arms.lead) && Runs(arms.body, v[2..], o))
     || RunsArm(arms.rest, choice, v, o))
  }

  /** At most `n` turns that come round again, and one that leaves: a break completes the loop. */
  ghost predicate Loops(body: Code, n: nat, u: seq<Event>, o: Outcome)
    decreases body, 3, n
  {
    || (o in {Stopped, Cut} && Runs(body, u, o))
    || (o == Normal && Runs(body, u, Broke))
    || (n > 0
        && exists i {:trigger u[..i]} ::
             && 0 <= i <= |u| && (Runs(body, u[..i], Normal) || Runs(body, u[..i], Continued))
             && Loops(body, n - 1, u[i..], o))
  }
}
