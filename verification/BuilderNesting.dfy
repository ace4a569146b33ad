/** Every stream the builder accepts is a well-nested program. */
module BuilderNesting {
  import opened StructuredCode
  import opened Wrappers
  import opened Builder
  import opened BuilderStack

  function Append(c: Code, d: Code): Code {
    match c
    case Done => d
    case Simple(t, n) => Simple(t, Append(n, d))
    case If(o, b, a, e, n) => If(o, b, a, e, Append(n, d))
    case Switch(o, b, a, e, n) => Switch(o, b, a, e, Append(n, d))
    case Loop(o, b, e, n) => Loop(o, b, e, Append(n, d))
  }

  lemma {:induction false} AppendFlattens(c: Code, d: Code)
    ensures Flatten(Append(c, d)) == Flatten(c) + Flatten(d)
  {
    if !c.Done? {
      hide Flatten;
      AppendFlattens(c.next, d);
      FlattenSplit(c);
      FlattenSplit(Append(c, d));
      assert FlattenHead(Append(c, d)) == FlattenHead(c);
      Regroup(FlattenHead(c), Flatten(c.next), Flatten(d));
    }
  }

  lemma Regroup<T>(a: seq<T>, b: seq<T>, c: seq<T>)
    ensures a + (b + c) == a + b + c
  {
  }

  lemma {:induction false} AppendScoped(c: Code, d: Code, inLoop: bool, breakable: bool)
    requires Scoped(c, inLoop, breakable) && Scoped(d, inLoop, breakable)
    ensures Scoped(Append(c, d), inLoop, breakable)
  {
    if !c.Done? {
      AppendScoped(c.next, d, inLoop, breakable);
    }
  }

  /** A region still open: the code before it, its opening instruction, the arms that are complete, each with the
      instruction that led it, and the one that leads the arm now being read. The first arm has no lead of its own. */
  datatype Frame = Frame(before: Code, open: Tok, parts: seq<(Tok, Code)>, lead: Tok)

  function FlatParts(parts: seq<(Tok, Code)>): seq<Tok> {
    if parts == [] then []
    else
      var n := |parts| - 1;
      FlatParts(parts[..n]) + (if n == 0 then [] else [parts[n].0]) + Flatten(parts[n].1)
  }

  /** The stream read so far, given the open regions and the code since the innermost arm began. */
  function Reading(frames: seq<Frame>, tail: Code): seq<Tok> {
    if frames == [] then Flatten(tail)
    else
      var n, top := |frames| - 1, frames[|frames| - 1];
      Reading(frames[..n], top.before) + [top.open] + FlatParts(top.parts + [(top.lead, tail)])
  }

  predicate Fits(open: Tok, scope: Scope) {
    match scope
    case IfScope(_, _) => open.effect == ConditionalOpen
    case SwitchScope(_, _, _) => open.effect == SwitchOpen
    case LoopScope(_, _) => open.effect == LoopOpen
  }

  function LeadOf(open: Tok): FlowEffect { if open.effect == ConditionalOpen then ConditionalAlternate else SwitchCase }

  /** The arms of an open region are well nested where they stand. */
  predicate PartsFit(f: Frame, inLoop: bool, breakable: bool) {
    && (f.open.effect == LoopOpen ==> f.parts == [])
    && (f.parts != [] ==> f.lead.effect == LeadOf(f.open))
    && forall i :: 0 <= i < |f.parts| ==>
         Scoped(f.parts[i].1, inLoop, breakable) && (i > 0 ==> f.parts[i].0.effect == LeadOf(f.open))
  }

  /** The open regions are those of the scope stack, and everything read is well nested. */
  predicate Nested(frames: seq<Frame>, tail: Code, scopes: seq<Scope>) {
    && |frames| == |scopes| && Scoped(tail, InLoop(scopes), Breakable(scopes))
    && (frames != [] ==>
          var n := |frames| - 1;
          && Fits(frames[n].open, scopes[n]) && PartsFit(frames[n], InLoop(scopes), Breakable(scopes))
          && Nested(frames[..n], frames[n].before, scopes[..n]))
  }

  /** Only which scopes are open matters. */
  lemma {:induction false} NestedKinds(frames: seq<Frame>, tail: Code, scopes: seq<Scope>, bs: seq<nat>)
    requires Nested(frames, tail, scopes)
    ensures Nested(frames, tail, AddBreaks(scopes, bs))
  {
    AddBreaksKeeps(scopes, bs);
    if frames != [] {
      var n := |frames| - 1;
      if scopes[n].IfScope? {
        NestedKinds(frames[..n], frames[n].before, scopes[..n], bs);
        assert AddBreaks(scopes, bs)[..n] == AddBreaks(scopes[..n], bs);
      } else {
        assert AddBreaks(scopes, bs)[..n] == scopes[..n];
      }
    }
  }

  lemma PartsEnd(parts: seq<(Tok, Code)>, lead: Tok, tail: Code)
    ensures FlatParts(parts + [(lead, tail)]) == FlatParts(parts) + (if parts == [] then [] else [lead]) + Flatten(tail)
  {
    assert (parts + [(lead, tail)])[..|parts|] == parts;
  }

  function ToArms(parts: seq<(Tok, Code)>): Arms {
    if parts == [] then NoArm else Arm(parts[0].0, parts[0].1, ToArms(parts[1..]))
  }

  lemma {:induction false} ArmsFlatten(parts: seq<(Tok, Code)>)
    requires parts != []
    ensures FlatParts(parts) == Flatten(parts[0].1) + FlattenArms(ToArms(parts[1..]))
  {
    var n := |parts| - 1;
    if n == 0 {
      assert parts[..0] == [];
    } else {
      hide FlattenArms, ToArms;
      var inner := FlattenArms(ToArms(parts[..n][1..]));
      ArmsFlatten(parts[..n]);
      assert parts[..n][1..] + [parts[n]] == parts[1..];
      ArmsSnoc(parts[..n][1..], parts[n]);
      Regroup(Flatten(parts[0].1), inner, [parts[n].0]);
      Regroup(Flatten(parts[0].1), inner + [parts[n].0], Flatten(parts[n].1));
    }
  }

  lemma {:induction false} ArmsSnoc(parts: seq<(Tok, Code)>, last: (Tok, Code))
    ensures FlattenArms(ToArms(parts + [last])) == FlattenArms(ToArms(parts)) + [last.0] + Flatten(last.1)
  {
    if parts == [] {
      assert ToArms([last]) == Arm(last.0, last.1, ToArms([]));
    } else {
      ArmsSnoc(parts[1..], last);
      assert (parts + [last])[1..] == parts[1..] + [last];
    }
  }

  lemma {:induction false} ArmsScoped(parts: seq<(Tok, Code)>, lead: FlowEffect, inLoop: bool, breakable: bool)
    requires forall i :: 0 <= i < |parts| ==> Scoped(parts[i].1, inLoop, breakable) && parts[i].0.effect == lead
    ensures ScopedArms(ToArms(parts), lead, inLoop, breakable)
  {
    if parts != [] {
      ArmsScoped(parts[1..], lead, inLoop, breakable);
    }
  }

  /** A closed region as a statement. */
  function Closed(f: Frame, tail: Code, close: Tok): Code {
    var parts := f.parts + [(f.lead, tail)];
    if f.open.effect == ConditionalOpen then If(f.open, parts[0].1, ToArms(parts[1..]), close, Done)
    else if f.open.effect == SwitchOpen then Switch(f.open, parts[0].1, ToArms(parts[1..]), close, Done)
    else Loop(f.open, parts[0].1, close, Done)
  }

  lemma ReadClose(frames: seq<Frame>, tail: Code, t: Tok)
    requires frames != [] && (frames[|frames| - 1].open.effect == LoopOpen ==> frames[|frames| - 1].parts == [])
    requires frames[|frames| - 1].open.effect in {ConditionalOpen, SwitchOpen, LoopOpen}
    ensures var n := |frames| - 1;
            Reading(frames[..n], Append(frames[n].before, Closed(frames[n], tail, t))) == Reading(frames, tail) + [t]
  {
    hide Flatten, FlatParts, Closed, Append, Reading;
    var n, top := |frames| - 1, frames[|frames| - 1];
    assert frames == frames[..n] + [top];
    ReadingTop(frames[..n], top, tail);
    ClosedFlattens(top, tail, t);
    ReadMore(frames[..n], top.before, Closed(top, tail, t));
  }

  lemma ClosedFlattens(f: Frame, tail: Code, t: Tok)
    requires f.open.effect in {ConditionalOpen, SwitchOpen, LoopOpen} && (f.open.effect == LoopOpen ==> f.parts == [])
    ensures Flatten(Closed(f, tail, t)) == [f.open] + FlatParts(f.parts + [(f.lead, tail)]) + [t]
  {
    hide Flatten, FlatParts, Closed;
    if f.open.effect == ConditionalOpen {
      ClosedConditional(f, tail, t);
    } else if f.open.effect == SwitchOpen {
      ClosedSwitch(f, tail, t);
    } else {
      ClosedLoop(f, tail, t);
    }
  }

  lemma {:induction false} ClosedConditional(f: Frame, tail: Code, t: Tok)
    requires f.open.effect == ConditionalOpen
    ensures Flatten(Closed(f, tail, t)) == [f.open] + FlatParts(f.parts + [(f.lead, tail)]) + [t]
  {
    hide FlatParts, ToArms, FlattenArms;
    var parts := f.parts + [(f.lead, tail)];
    ArmsFlatten(parts);
    assert Flatten(Done) == [];
    assert Flatten(Closed(f, tail, t)) == [f.open] + Flatten(parts[0].1) + FlattenArms(ToArms(parts[1..])) + [t] + [];
  }

  lemma {:induction false} ClosedSwitch(f: Frame, tail: Code, t: Tok)
    requires f.open.effect == SwitchOpen
    ensures Flatten(Closed(f, tail, t)) == [f.open] + FlatParts(f.parts + [(f.lead, tail)]) + [t]
  {
    hide FlatParts, ToArms, FlattenArms;
    var parts := f.parts + [(f.lead, tail)];
    ArmsFlatten(parts);
    assert Flatten(Done) == [];
    assert Flatten(Closed(f, tail, t)) == [f.open] + Flatten(parts[0].1) + FlattenArms(ToArms(parts[1..])) + [t] + [];
  }

  lemma {:induction false} ClosedLoop(f: Frame, tail: Code, t: Tok)
    requires f.open.effect == LoopOpen && f.parts == []
    ensures Flatten(Closed(f, tail, t)) == [f.open] + FlatParts(f.parts + [(f.lead, tail)]) + [t]
  {
    PartsEnd([], f.lead, tail);
    assert f.parts + [(f.lead, tail)] == [] + [(f.lead, tail)];
    assert FlatParts([]) == [] && Flatten(Done) == [];
    assert Closed(f, tail, t) == Loop(f.open, tail, t, Done);
    assert Flatten(Loop(f.open, tail, t, Done)) == [f.open] + Flatten(tail) + [t] + [];
  }

  lemma ReadMore(frames: seq<Frame>, tail: Code, more: Code)
    ensures Reading(frames, Append(tail, more)) == Reading(frames, tail) + Flatten(more)
  {
    hide Flatten, FlatParts, Append;
    AppendFlattens(tail, more);
    if frames != [] {
      var n, top := |frames| - 1, frames[|frames| - 1];
      var before := FlatParts(top.parts) + if top.parts == [] then [] else [top.lead];
      PartsEnd(top.parts, top.lead, tail);
      PartsEnd(top.parts, top.lead, Append(tail, more));
      Regroup(before, Flatten(tail), Flatten(more));
      Regroup(Reading(frames[..n], top.before) + [top.open], before + Flatten(tail), Flatten(more));
    }
  }

  lemma CloseNested(frames: seq<Frame>, tail: Code, t: Tok, scopes: seq<Scope>)
    requires frames != [] && Nested(frames, tail, scopes)
    requires t.effect == (match scopes[|scopes| - 1]
                          case IfScope(_, _) => ConditionalClose
                          case SwitchScope(_, _, _) => SwitchClose
                          case LoopScope(_, _) => LoopClose)
    ensures var n := |frames| - 1;
            Nested(frames[..n], Append(frames[n].before, Closed(frames[n], tail, t)), scopes[..n])
  {
    hide InLoop, Breakable, Scoped, Closed, PartsFit;
    var n, top := |frames| - 1, frames[|frames| - 1];
    assert scopes == scopes[..n] + [scopes[n]];
    PushScope(scopes[..n], scopes[n]);
    ClosedScoped(top, tail, t, scopes[n], InLoop(scopes[..n]), Breakable(scopes[..n]));
    TailScoped(frames[..n], top.before, scopes[..n]);
    AppendScoped(top.before, Closed(top, tail, t), InLoop(scopes[..n]), Breakable(scopes[..n]));
    OtherTail(frames[..n], top.before, Append(top.before, Closed(top, tail, t)), scopes[..n]);
  }

  lemma TailScoped(frames: seq<Frame>, tail: Code, scopes: seq<Scope>)
    requires Nested(frames, tail, scopes)
    ensures Scoped(tail, InLoop(scopes), Breakable(scopes))
  {
  }

  /** Any well-nested code may stand where the innermost arm is being read. */
  lemma OtherTail(frames: seq<Frame>, tail: Code, other: Code, scopes: seq<Scope>)
    requires Nested(frames, tail, scopes) && Scoped(other, InLoop(scopes), Breakable(scopes))
    ensures Nested(frames, other, scopes)
  {
  }

  /** A region that closes is a well-nested statement. */
  lemma ClosedScoped(f: Frame, tail: Code, t: Tok, scope: Scope, inLoop: bool, breakable: bool)
    requires Fits(f.open, scope)
    requires var within, leaving := scope.LoopScope? || inLoop, !scope.IfScope? || breakable;
             Scoped(tail, within, leaving) && PartsFit(f, within, leaving)
    requires t.effect == (match scope
                          case IfScope(_, _) => ConditionalClose
                          case SwitchScope(_, _, _) => SwitchClose
                          case LoopScope(_, _) => LoopClose)
    ensures Scoped(Closed(f, tail, t), inLoop, breakable)
  {
    var within, leaving := scope.LoopScope? || inLoop, !scope.IfScope? || breakable;
    var parts := f.parts + [(f.lead, tail)];
    forall i | 0 <= i < |parts[1..]|
      ensures Scoped(parts[1..][i].1, within, leaving) && parts[1..][i].0.effect == LeadOf(f.open)
    {
      assert parts[1..][i] == parts[i + 1];
    }
    ArmsScoped(parts[1..], LeadOf(f.open), within, leaving);
    assert Scoped(parts[0].1, within, leaving) by {
      assert f.parts == [] || parts[0] == f.parts[0];
    }
  }

  lemma {:induction false} ReadOne(frames: seq<Frame>, tail: Code, t: Tok)
    ensures Reading(frames, Append(tail, Simple(t, Done))) == Reading(frames, tail) + [t]
  {
    ReadMore(frames, tail, Simple(t, Done));
    assert Flatten(Done) == [];
    assert Flatten(Simple(t, Done)) == [t] + [];
  }

  lemma {:induction false} ReadSimple(frames: seq<Frame>, tail: Code, st: State, t: Tok)
    requires Nested(frames, tail, st.scopes) && Process(st, t).Ok? && !IsMarker(t)
    ensures Reading(frames, Append(tail, Simple(t, Done))) == Reading(frames, tail) + [t]
    ensures Nested(frames, Append(tail, Simple(t, Done)), Process(st, t).value.scopes)
  {
    ReadOne(frames, tail, t);
    NestedOne(frames, tail, st, t);
  }

  lemma {:induction false} NestedOne(frames: seq<Frame>, tail: Code, st: State, t: Tok)
    requires Nested(frames, tail, st.scopes) && Process(st, t).Ok? && !IsMarker(t)
    ensures Nested(frames, Append(tail, Simple(t, Done)), Process(st, t).value.scopes)
  {
    AppendScoped(tail, Simple(t, Done), InLoop(st.scopes), Breakable(st.scopes));
    SimpleNested(frames, Append(tail, Simple(t, Done)), st, t);
  }

  lemma ReadOpen(frames: seq<Frame>, tail: Code, st: State, t: Tok)
    requires Nested(frames, tail, st.scopes) && Process(st, t).Ok? && t.effect in {ConditionalOpen, SwitchOpen, LoopOpen}
    ensures Reading(frames + [Frame(tail, t, [], t)], Done) == Reading(frames, tail) + [t]
    ensures Nested(frames + [Frame(tail, t, [], t)], Done, Process(st, t).value.scopes)
  {
    hide Reading, Nested, Flatten, FlatParts, Process;
    OpenText(frames, tail, t);
    OpenNested(frames, tail, st, t);
  }

  lemma OpenText(frames: seq<Frame>, tail: Code, t: Tok)
    ensures Reading(frames + [Frame(tail, t, [], t)], Done) == Reading(frames, tail) + [t]
  {
    ReadingTop(frames, Frame(tail, t, [], t), Done);
    PartsEnd([], t, Done);
    assert FlatParts([]) == [] && Flatten(Done) == [];
  }

  lemma OpenNested(frames: seq<Frame>, tail: Code, st: State, t: Tok)
    requires Nested(frames, tail, st.scopes) && Process(st, t).Ok? && t.effect in {ConditionalOpen, SwitchOpen, LoopOpen}
    ensures Nested(frames + [Frame(tail, t, [], t)], Done, Process(st, t).value.scopes)
  {
    hide Process, InLoop, Breakable;
    OpenScope(st, t);
    var more, next := frames + [Frame(tail, t, [], t)], Process(st, t).value.scopes;
    assert more[..|frames|] == frames && next[..|frames|] == st.scopes;
    DoneScoped(InLoop(next), Breakable(next));
  }

  lemma OpenScope(st: State, t: Tok)
    requires Process(st, t).Ok? && t.effect in {ConditionalOpen, SwitchOpen, LoopOpen}
    ensures var next := Process(st, t).value.scopes;
            next != [] && next[..|next| - 1] == st.scopes && Fits(t, next[|next| - 1])
  {
  }

  lemma DoneScoped(inLoop: bool, breakable: bool)
    ensures Scoped(Done, inLoop, breakable)
  {
  }

  lemma ReadArm(frames: seq<Frame>, tail: Code, st: State, t: Tok)
    requires Nested(frames, tail, st.scopes) && Process(st, t).Ok? && t.effect in {ConditionalAlternate, SwitchCase}
    ensures frames != []
    ensures var n := |frames| - 1;
            var more := frames[..n] + [NextArmOf(frames, tail, t)];
            Reading(more, Done) == Reading(frames, tail) + [t] && Nested(more, Done, Process(st, t).value.scopes)
  {
    ArmNested(frames, tail, st, t);
    ReadArmText(frames, tail, t);
    ArmFrames(frames, tail, NextArmOf(frames, tail, t), st.scopes, Process(st, t).value.scopes);
  }

  function NextArmOf(frames: seq<Frame>, tail: Code, t: Tok): Frame
    requires frames != []
  {
    var top := frames[|frames| - 1];
    top.(parts := top.parts + [(top.lead, tail)], lead := t)
  }

  lemma ReadArmText(frames: seq<Frame>, tail: Code, t: Tok)
    requires frames != []
    ensures Reading(frames[..|frames| - 1] + [NextArmOf(frames, tail, t)], Done) == Reading(frames, tail) + [t]
  {
    var n, arm := |frames| - 1, NextArmOf(frames, tail, t);
    assert frames == frames[..n] + [frames[n]];
    ReadingTop(frames[..n], frames[n], tail);
    ReadingTop(frames[..n], arm, Done);
    PartsEnd(arm.parts, t, Done);
    assert Flatten(Done) == [];
  }

  lemma ReadingTop(frames: seq<Frame>, f: Frame, tail: Code)
    ensures Reading(frames + [f], tail) == Reading(frames, f.before) + [f.open] + FlatParts(f.parts + [(f.lead, tail)])
  {
    assert (frames + [f])[..|frames|] == frames;
  }

  lemma ArmFrames(frames: seq<Frame>, tail: Code, arm: Frame, scopes: seq<Scope>, next: seq<Scope>)
    requires frames != [] && Nested(frames, tail, scopes) && |next| == |scopes|
    requires var n := |frames| - 1;
             && next[..n] == scopes[..n] && arm.before == frames[n].before && Fits(arm.open, next[n])
             && PartsFit(arm, InLoop(next), Breakable(next))
    ensures Nested(frames[..|frames| - 1] + [arm], Done, next)
  {
    var n := |frames| - 1;
    assert (frames[..n] + [arm])[..n] == frames[..n];
  }

  /** Reading one more accepted instruction. */
  lemma ReadStep(frames: seq<Frame>, tail: Code, st: State, t: Tok) returns (frames': seq<Frame>, tail': Code)
    requires Nested(frames, tail, st.scopes) && Process(st, t).Ok?
    ensures Reading(frames', tail') == Reading(frames, tail) + [t] && Nested(frames', tail', Process(st, t).value.scopes)
  {
    hide Flatten, Reading, Process, Append, Nested, Closed;
    var n := |frames| - 1;
    if !IsMarker(t) {
      frames', tail' := frames, Append(tail, Simple(t, Done));
      ReadSimple(frames, tail, st, t);
    } else if t.effect in {ConditionalOpen, SwitchOpen, LoopOpen} {
      frames', tail' := frames + [Frame(tail, t, [], t)], Done;
      ReadOpen(frames, tail, st, t);
    } else if t.effect in {ConditionalAlternate, SwitchCase} {
      ReadArm(frames, tail, st, t);
      frames', tail' := frames[..n] + [NextArmOf(frames, tail, t)], Done;
    } else {
      ReadClosed(frames, tail, st, t);
      frames', tail' := frames[..n], Append(frames[n].before, Closed(frames[n], tail, t));
    }
  }

  lemma ReadClosed(frames: seq<Frame>, tail: Code, st: State, t: Tok)
    requires Nested(frames, tail, st.scopes) && Process(st, t).Ok? && t.effect in {ConditionalClose, SwitchClose, LoopClose}
    ensures frames != []
    ensures var n := |frames| - 1; var code := Append(frames[n].before, Closed(frames[n], tail, t));
            Reading(frames[..n], code) == Reading(frames, tail) + [t] && Nested(frames[..n], code, Process(st, t).value.scopes)
  {
    hide Flatten, Reading, Process, Append, Nested, Closed;
    ClosingFits(frames, tail, st, t);
    ReadClose(frames, tail, t);
    CloseNested(frames, tail, t, st.scopes);
  }

  lemma ClosingFits(frames: seq<Frame>, tail: Code, st: State, t: Tok)
    requires Nested(frames, tail, st.scopes) && Process(st, t).Ok? && t.effect in {ConditionalClose, SwitchClose, LoopClose}
    ensures frames != [] && Process(st, t).value.scopes == st.scopes[..|frames| - 1]
    ensures frames[|frames| - 1].open.effect in {ConditionalOpen, SwitchOpen, LoopOpen}
    ensures frames[|frames| - 1].open.effect == LoopOpen ==> frames[|frames| - 1].parts == []
    ensures t.effect == (match st.scopes[|st.scopes| - 1]
                         case IfScope(_, _) => ConditionalClose
                         case SwitchScope(_, _, _) => SwitchClose
                         case LoopScope(_, _) => LoopClose)
  {
    hide InLoop, Breakable, Scoped;
  }

  lemma SimpleNested(frames: seq<Frame>, tail: Code, st: State, t: Tok)
    requires !IsMarker(t) && Process(st, t).Ok?
    requires Scoped(tail, InLoop(st.scopes), Breakable(st.scopes)) && (exists was :: Nested(frames, was, st.scopes))
    ensures Nested(frames, tail, Process(st, t).value.scopes)
  {
    hide InLoop, Scoped, Flatten;
    var was :| Nested(frames, was, st.scopes);
    assert Nested(frames, tail, st.scopes);
    AddNoBreaks(st.scopes);
    if t.effect == Break {
      RecordIsAdd(st.scopes, st.current);
      NestedKinds(frames, tail, st.scopes, [st.current]);
    } else if t.effect == ConditionalBreak {
      RecordIsAdd(st.scopes, |st.g|);
      NestedKinds(frames, tail, st.scopes, [|st.g|]);
    }
  }

  lemma ArmNested(frames: seq<Frame>, tail: Code, st: State, t: Tok)
    requires Nested(frames, tail, st.scopes) && Process(st, t).Ok? && t.effect in {ConditionalAlternate, SwitchCase}
    ensures var n, next := |frames| - 1, Process(st, t).value.scopes;
            var more := frames[n].(parts := frames[n].parts + [(frames[n].lead, tail)], lead := t);
            && frames != [] && |next| == |st.scopes| && next[..n] == st.scopes[..n]
            && Fits(more.open, next[n]) && PartsFit(more, InLoop(next), Breakable(next))
            && InLoop(next) == InLoop(st.scopes) && Breakable(next) == Breakable(st.scopes)
  {
    hide Process, InLoop, Breakable, Scoped;
    ArmScope(frames, tail, st, t);
    ExitsKeep(st.scopes, [st.current]);
    var n := |frames| - 1;
    var top := frames[n];
    forall i | 0 <= i < |top.parts| + 1
      ensures Scoped((top.parts + [(top.lead, tail)])[i].1, InLoop(st.scopes), Breakable(st.scopes))
      ensures i > 0 ==> (top.parts + [(top.lead, tail)])[i].0.effect == LeadOf(top.open)
    {
      if i < |top.parts| {
        assert (top.parts + [(top.lead, tail)])[i] == top.parts[i];
      }
    }
  }

  /** An accepted alternate or case belongs to the region around. */
  lemma ArmScope(frames: seq<Frame>, tail: Code, st: State, t: Tok)
    requires Nested(frames, tail, st.scopes) && Process(st, t).Ok? && t.effect in {ConditionalAlternate, SwitchCase}
    ensures Branching(st.scopes) && Process(st, t).value.scopes == WithExits(st.scopes, [st.current])
    ensures frames != [] && frames[|frames| - 1].open.effect == (if st.scopes[|st.scopes| - 1].IfScope? then ConditionalOpen else SwitchOpen)
    ensures t.effect == LeadOf(frames[|frames| - 1].open)
  {
  }

  lemma NothingRead()
    ensures Reading([], Done) == [] && Nested([], Done, Initial().scopes)
  {
  }

  /** Everything accepted so far reads as open regions around well-nested code. */
  lemma {:induction false} AcceptedReads(ts: seq<Tok>) returns (frames: seq<Frame>, tail: Code)
    requires ProcessAll(Initial(), ts).Ok?
    ensures Reading(frames, tail) == ts && Nested(frames, tail, ProcessAll(Initial(), ts).value.scopes)
  {
    hide Process, Append, Reading, Nested, Flatten;
    if ts == [] {
      frames, tail := [], Done;
      NothingRead();
    } else {
      var n := |ts| - 1;
      frames, tail := AcceptedReads(ts[..n]);
      frames, tail := ReadStep(frames, tail, ProcessAll(Initial(), ts[..n]).value, ts[n]);
      assert ts == ts[..n] + [ts[n]];
    }
  }
}
