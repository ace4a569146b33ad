/** Value numbering is sound on every run. */
module NumberingSoundness {
  import opened Wrappers
  import opened Program
  import opened Trails
  import opened Ways
  import opened Numbering
  import opened NumberingMeaning

  lemma TablesIssued(p: Cfg, start: Start, a: Pos)
    requires a.block in start.at && a.idx <= |Insts(p, a.block)| && Issued(start.at[a.block])
    ensures Issued(TablesBefore(p, start, a))
  {
    NumberSpan(start.at[a.block], Insts(p, a.block), a.idx, a.idx);
  }

  /** Executing one instruction keeps the tables descriptive. */
  lemma ExecDescribes(p: Cfg, start: Start, sem: Semantics, f: Operator, r: Run, nu: Valuation, env: int)
    returns (mu: Valuation)
    requires p.WellFormed() && p.Contracts() && AllDeterministic(p, sem, f)
    requires r.at.block in p.blocks && AtInst(p, r.at) && Describes(p, start, sem, f, r, nu)
    ensures Describes(p, start, sem, f, Step(r, After(r.at), env), mu)
    ensures AgreeBelow(nu, mu, TablesBefore(p, start, r.at).next)
    ensures IsNumbered(InstAt(p, r.at)) ==>
              && NumberingOf(p, start, r.at).value.Some?
              && Val(mu, NumberingOf(p, start, r.at).value.value) ==
                 f(InstAt(p, r.at).op, ReadAll(StoreOf(p, sem, r), InstAt(p, r.at).uses))
  {
    var t, inst, q := TablesBefore(p, start, r.at), InstAt(p, r.at), Step(r, After(r.at), env);
    assert p.blocks[r.at.block][r.at.idx] == inst;
    TablesIssued(p, start, r.at);
    forall key | key in t.exprs ensures Val(nu, t.exprs[key]) == f(key.op, Vals(nu, key.operands)) {
      assert KeyHolds(p, start, sem, f, r, nu, key, t.exprs[key]);
    }
    mu := VarsStep(t, sem, f, inst, nu, StoreOf(p, sem, r), env);
    ExecKeys(p, start, sem, f, r, nu, mu, env);
    assert TablesBefore(p, start, q.at) == NumberInst(t, inst).0;
  }

  lemma ExecKeys(p: Cfg, start: Start, sem: Semantics, f: Operator, r: Run, nu: Valuation, mu: Valuation, env: int)
    requires r.at.block in start.at && AtInst(p, r.at) && Describes(p, start, sem, f, r, nu)
    requires AgreeBelow(nu, mu, TablesBefore(p, start, r.at).next)
    requires IsNumbered(InstAt(p, r.at)) ==>
               && NumberingOf(p, start, r.at).value.Some?
               && Val(mu, NumberingOf(p, start, r.at).value.value) ==
                  f(InstAt(p, r.at).op, ReadAll(StoreOf(p, sem, r), InstAt(p, r.at).uses))
               && Vals(mu, KeyOf(TablesBefore(p, start, r.at), InstAt(p, r.at)).operands) ==
                  ReadAll(StoreOf(p, sem, r), InstAt(p, r.at).uses)
    ensures KeysHold(p, start, sem, f, Step(r, After(r.at), env), TablesBefore(p, start, After(r.at)), mu)
  {
    forall key | key in TablesBefore(p, start, After(r.at)).exprs
      ensures KeyHolds(p, start, sem, f, Step(r, After(r.at), env), mu, key, TablesBefore(p, start, After(r.at)).exprs[key])
    {
      ExecKey(p, start, sem, f, r, nu, mu, env, key);
    }
  }

  lemma ExecKey(p: Cfg, start: Start, sem: Semantics, f: Operator, r: Run, nu: Valuation, mu: Valuation, env: int,
                key: Key)
    requires r.at.block in start.at && AtInst(p, r.at) && Describes(p, start, sem, f, r, nu)
    requires AgreeBelow(nu, mu, TablesBefore(p, start, r.at).next)
    requires IsNumbered(InstAt(p, r.at)) ==>
               && NumberingOf(p, start, r.at).value.Some?
               && Val(mu, NumberingOf(p, start, r.at).value.value) ==
                  f(InstAt(p, r.at).op, ReadAll(StoreOf(p, sem, r), InstAt(p, r.at).uses))
               && Vals(mu, KeyOf(TablesBefore(p, start, r.at), InstAt(p, r.at)).operands) ==
                  ReadAll(StoreOf(p, sem, r), InstAt(p, r.at).uses)
    requires key in TablesBefore(p, start, After(r.at)).exprs
    ensures KeyHolds(p, start, sem, f, Step(r, After(r.at), env), mu, key, TablesBefore(p, start, After(r.at)).exprs[key])
  {
    var t := TablesBefore(p, start, r.at);
    TablesIssued(p, start, r.at);
    NumberExprs(t, InstAt(p, r.at));
    if key in t.exprs {
      OldKeyHolds(p, start, sem, f, r, nu, mu, env, key);
    } else {
      NewKeyHolds(p, start, sem, f, r, mu, env, key);
    }
  }

  /** An available expression is not introduced again, so its origin stays where it is. */
  lemma OriginAfter(p: Cfg, start: Start, at: Pos, key: Key, a: Pos)
    requires at.block in start.at && AtInst(p, at) && Issued(start.at[at.block]) && key in TablesBefore(p, start, at).exprs
    requires exists steps: nat :: Origin(p, start, at, key, a, steps)
    ensures exists steps: nat :: Origin(p, start, After(at), key, a, steps)
  {
    var steps: nat :| Origin(p, start, at, key, a, steps);
    TablesIssued(p, start, at);
    NumberExprs(TablesBefore(p, start, at), InstAt(p, at));
    assert forall n :: !Introduces(p, start, at, key, n);
    assert Origin(p, start, After(at), key, a, steps);
  }

  /** By the end of the block it still is. */
  lemma {:induction false} OriginAtEnd(p: Cfg, start: Start, at: Pos, key: Key, a: Pos)
    requires at.block in start.at && at.idx <= |Insts(p, at.block)| && Issued(start.at[at.block])
    requires key in TablesBefore(p, start, at).exprs && exists steps: nat :: Origin(p, start, at, key, a, steps)
    ensures exists steps: nat :: Origin(p, start, Pos(at.block, |Insts(p, at.block)|), key, a, steps)
    decreases |Insts(p, at.block)| - at.idx
  {
    if AtInst(p, at) {
      OriginAfter(p, start, at, key, a);
      TablesIssued(p, start, at);
      NumberExprs(TablesBefore(p, start, at), InstAt(p, at));
      OriginAtEnd(p, start, After(at), key, a);
    }
  }

  /** An expression has one origin. */
  lemma OriginOutside(p: Cfg, start: Start, at: Pos, key: Key, b: Pos, n: nat)
    requires Origin(p, start, at, key, b, n) && NotIntroduced(p, start, at, key)
    ensures b.block != at.block
  {
  }

  lemma {:induction false} OriginUnique(p: Cfg, start: Start, at: Pos, key: Key, a: Pos, b: Pos, m: nat, n: nat)
    requires at.block in start.at ==> Issued(start.at[at.block])
    requires Origin(p, start, at, key, a, m) && Origin(p, start, at, key, b, n)
    requires forall y :: y in start.at ==> Issued(start.at[y])
    ensures a == b
    decreases m
  {
    if a.block == at.block && a.idx < at.idx {
      var k :| Introduces(p, start, a, key, k);
      if b.block == at.block && b.idx < at.idx {
        var l :| Introduces(p, start, b, key, l);
        if a.idx < b.idx {
          IntroducedStays(p, start, a, b, key, k);
        } else if b.idx < a.idx {
          IntroducedStays(p, start, b, a, key, l);
        }
      }
    } else {
      OriginOutside(p, start, at, key, b, n);
      OriginUnique(p, start, Pos(start.idom[at.block], |Insts(p, start.idom[at.block])|), key, a, b, m - 1, n - 1);
    }
  }

  lemma IntroducedStays(p: Cfg, start: Start, a: Pos, b: Pos, key: Key, n: VN)
    requires Introduces(p, start, a, key, n) && Issued(start.at[a.block]) && b.block == a.block && AtInst(p, b) && a.idx < b.idx
    ensures forall l :: !Introduces(p, start, b, key, l)
  {
    TablesIssued(p, start, a);
    NumberExprs(TablesBefore(p, start, a), InstAt(p, a));
    NumberSpan(start.at[a.block], Insts(p, a.block), a.idx + 1, b.idx);
    assert key in TablesBefore(p, start, After(a)).exprs;
    TablesIssued(p, start, b);
    NumberExprs(TablesBefore(p, start, b), InstAt(p, b));
  }

  lemma OldKeyHolds(p: Cfg, start: Start, sem: Semantics, f: Operator, r: Run, nu: Valuation, mu: Valuation, env: int,
                    key: Key)
    requires r.at.block in start.at && AtInst(p, r.at) && Describes(p, start, sem, f, r, nu)
    requires key in TablesBefore(p, start, r.at).exprs && AgreeBelow(nu, mu, TablesBefore(p, start, r.at).next)
    ensures KeyHolds(p, start, sem, f, Step(r, After(r.at), env), mu, key, TablesBefore(p, start, r.at).exprs[key])
  {
    var t, q := TablesBefore(p, start, r.at), Step(r, After(r.at), env);
    TablesIssued(p, start, r.at);
    NumberExprs(t, InstAt(p, r.at));
    assert KeyHolds(p, start, sem, f, r, nu, key, t.exprs[key]);
    forall a, c | Witness(p, start, sem, f, r, key, t.exprs[key], c, a)
      ensures Witness(p, start, sem, f, q, key, t.exprs[key], c, a)
    {
      OriginAfter(p, start, r.at, key, a);
    }
    KeyCarries(p, start, sem, f, r, q, nu, mu, t.next, key, t.exprs[key]);
  }

  lemma NewKeyHolds(p: Cfg, start: Start, sem: Semantics, f: Operator, r: Run, mu: Valuation, env: int, key: Key)
    requires r.at.block in start.at && AtInst(p, r.at) && Issued(start.at[r.at.block])
    requires key !in TablesBefore(p, start, r.at).exprs && key in TablesBefore(p, start, After(r.at)).exprs
    requires IsNumbered(InstAt(p, r.at)) ==>
               && NumberingOf(p, start, r.at).value.Some?
               && Val(mu, NumberingOf(p, start, r.at).value.value) ==
                  f(InstAt(p, r.at).op, ReadAll(StoreOf(p, sem, r), InstAt(p, r.at).uses))
               && Vals(mu, KeyOf(TablesBefore(p, start, r.at), InstAt(p, r.at)).operands) ==
                  ReadAll(StoreOf(p, sem, r), InstAt(p, r.at).uses)
    ensures KeyHolds(p, start, sem, f, Step(r, After(r.at), env), mu, key, TablesBefore(p, start, After(r.at)).exprs[key])
  {
    var t, inst := TablesBefore(p, start, r.at), InstAt(p, r.at);
    TablesIssued(p, start, r.at);
    NumberExprs(t, inst);
    SeeAllStep(t, inst.uses);
    var n := NumberingOf(p, start, r.at);
    assert n == NumberInst(t, inst).1 && n.introduced == Some(key);
    assert Introduces(p, start, r.at, key, n.value.value) && Origin(p, start, After(r.at), key, r.at, 0);
    assert Witness(p, start, sem, f, Step(r, After(r.at), env), key, n.value.value, Val(mu, n.value.value), r.at);
  }

  /** The variables some block between `d` and `y` writes. */
  ghost predicate SideDefinition(p: Cfg, d: BlockId, y: BlockId, v: Var) {
    exists z, i :: Between(p, d, y, z) && 0 <= i < |Insts(p, z)| && v in Insts(p, z)[i].defs
  }

  /** Whether an unwind out of `d` reaches `y` without re-entering `d`. */
  ghost predicate AfterUnwind(p: Cfg, d: BlockId, y: BlockId) {
    FirstUnwind(p, d).Some? && UnwindReaches(p, d, y)
  }

  /** What `y` must forget of the tables its parent `d` ended with. */
  ghost predicate Forgotten(p: Cfg, d: BlockId, y: BlockId, v: Var) {
    || (AfterUnwind(p, d, y) && v in DefsFrom(Insts(p, d), FirstUnwind(p, d).value, |Insts(p, d)|))
    || SideDefinition(p, d, y, v)
  }

  ghost function Hidden(p: Cfg, start: Start, d: BlockId, y: BlockId): set<Key>
    requires d in start.at
  {
    if AfterUnwind(p, d, y) then KeysFrom(start.at[d], Insts(p, d), FirstUnwind(p, d).value, |Insts(p, d)|) else {}
  }

  /** `y` starts from the tables its immediate dominator ended with, less the hidden expressions, with a number of
      its own for every variable it must forget. */
  ghost predicate EntryFrom(p: Cfg, start: Start, d: BlockId, y: BlockId) {
    && d in start.at && y in start.at
    && var e, t := TablesBefore(p, start, Pos(d, |Insts(p, d)|)), start.at[y];
       && Issued(t) && e.next <= t.next
       && t.exprs == e.exprs - Hidden(p, start, d, y)
       && (forall v {:trigger t.vars[v]} {:trigger e.vars[v]} :: !Forgotten(p, d, y, v) ==>
             (v in t.vars <==> v in e.vars) && (v in t.vars ==> t.vars[v] == e.vars[v]))
       && (forall v {:trigger t.vars[v]} :: v in t.vars && Forgotten(p, d, y, v) ==> t.vars[v] >= e.next)
       && InjectiveFrom(t.vars, e.next)
  }

  /** `y` was handed its tables by its immediate dominator. */
  ghost predicate HandedDown(p: Cfg, start: Start, y: BlockId) {
    && y in start.at && y in start.idom && start.idom[y] != y && ReachableBlock(p, start.idom[y])
    && BlockDominates(p, start.idom[y], y) && Issued(start.at[y]) && EntryFrom(p, start, start.idom[y], y)
  }

  /** A numbering of the reachable blocks along a dominator tree: the root starts with nothing, every other block
      from its immediate dominator. */
  ghost predicate NumberingOk(p: Cfg, start: Start) {
    && p.entry in start.at && start.at[p.entry].vars == map[] && start.at[p.entry].exprs == map[]
    && (forall y {:trigger HandedDown(p, start, y)} :: ReachableBlock(p, y) && y != p.entry ==> HandedDown(p, start, y))
  }

  /** The run stood in `d` last at `q`, left it there, and has been between `d` and `y` ever since. */
  ghost predicate LeftAt(p: Cfg, sem: Semantics, f: Operator, r: Run, q: Run, d: BlockId, y: BlockId) {
    && IsRun(p, q) && q.at.block == d && (q == r || q < r)
    && (q.at.idx == |Insts(p, d)| || (AfterUnwind(p, d, y) && FirstUnwind(p, d).value <= q.at.idx < |Insts(p, d)|))
    && (forall v :: !SideDefinition(p, d, y, v) ==> Read(StoreOf(p, sem, r), v) == Read(StoreOf(p, sem, q), v))
    && (forall a: Pos :: BlockDominates(p, a.block, d) && Executed(q, a) ==>
          Executed(r, a) && LastValue(p, sem, f, r, a) == LastValue(p, sem, f, q, a))
  }

  /** The way a run that is about to cross an edge of its block still has to go, once out of `d`. */
  lemma LeavesDominator(p: Cfg, sem: Semantics, f: Operator, r: Run, d: BlockId, y: BlockId, w: Way)
    requires p.WellFormed() && IsRun(p, r) && r.at.block == d && d != y
    requires IsWay(p, w) && w.Avoids(d) && w.End() == y && Crosses(p, r.at, Pos(w.at, 0))
    ensures LeftAt(p, sem, f, r, r, d, y)
  {
    var e :| e in p.edges && LeavesVia(p, r.at, p.edges[e]) && p.edges[e].target == w.at;
    if Departs(p, p.edges[e]) {
      assert HasUnwindEdge(p, d) && FirstUnwind(p, d).Some?;
      AppendIsTrail(p, From(w.at), w, d);
      assert UnwindSuccessor(p, d, w.at);
      assert IsTrail(p, Append(From(w.at), w));
    }
  }

  /** Looking back from `r`, about to cross to the start of `w`, to the last time the run stood in `d`. */
  lemma {:induction false} Since(p: Cfg, sem: Semantics, f: Operator, r: Run, d: BlockId, y: BlockId, w: Way) returns (q: Run)
    requires p.WellFormed() && p.Contracts() && IsRun(p, r) && BlockDominates(p, d, y) && d != y && ReachableBlock(p, d)
    requires IsWay(p, w) && w.End() == y && w.Avoids(d) && Crosses(p, r.at, Pos(w.at, 0))
    ensures LeftAt(p, sem, f, r, q, d, y)
    decreases r, 1
  {
    if r.at.block == d {
      LeavesDominator(p, sem, f, r, d, y, w);
      q := r;
    } else {
      var e :| e in p.edges && LeavesVia(p, r.at, p.edges[e]) && p.edges[e].target == w.at;
      q := SinceIn(p, sem, f, r, d, y, Hop(r.at.block, w));
    }
  }

  /** The same, from inside a block between `d` and `y`. */
  lemma {:induction false} SinceIn(p: Cfg, sem: Semantics, f: Operator, r: Run, d: BlockId, y: BlockId, w: Way) returns (q: Run)
    requires p.WellFormed() && p.Contracts() && IsRun(p, r) && BlockDominates(p, d, y) && d != y && ReachableBlock(p, d)
    requires IsWay(p, w) && w.Hop? && w.at == r.at.block && w.End() == y && w.Avoids(d)
    ensures LeftAt(p, sem, f, r, q, d, y)
    decreases r, 0
  {
    var x := r.at.block;
    var t := RunTrail(p, r);
    assert Between(p, d, y, x);
    if r.Enter? {
      AppendIsTrail(p, From(p.entry), w, d);
      assert IsTrailTo(p, Append(From(p.entry), w), p.entry, y);
      assert false;
    }
    RunInRange(p, r.prev);
    if Execs(p, r.prev.at, r.at) {
      q := SinceIn(p, sem, f, r.prev, d, y, w);
      QuietStep(p, sem, f, r, q, d, y);
    } else {
      q := Since(p, sem, f, r.prev, d, y, w);
    }
  }

  /** An instruction executed between `d` and `y` changes nothing the tables of `d` speak of. */
  lemma QuietStep(p: Cfg, sem: Semantics, f: Operator, r: Run, q: Run, d: BlockId, y: BlockId)
    requires p.WellFormed() && p.Contracts() && IsRun(p, r) && r.Step? && Execs(p, r.prev.at, r.at)
    requires BlockDominates(p, d, y) && d != y && ReachableBlock(p, d) && Between(p, d, y, r.at.block)
    requires InRange(p, r.prev.at) && LeftAt(p, sem, f, r.prev, q, d, y)
    ensures LeftAt(p, sem, f, r, q, d, y)
  {
    var inst, s := InstAt(p, r.prev.at), StoreOf(p, sem, r.prev);
    assert p.blocks[r.prev.at.block][r.prev.at.idx] == inst;
    forall v | !SideDefinition(p, d, y, v) ensures Read(StoreOf(p, sem, r), v) == Read(s, v) {
      ExecOther(sem, inst, s, r.env, v);
    }
    forall a: Pos | BlockDominates(p, a.block, d) ensures a != r.prev.at {
      DominatorsNotBetween(p, a.block, d, y);
    }
  }

  lemma DominatesTrans(p: Cfg, a: BlockId, d: BlockId, y: BlockId)
    requires BlockDominates(p, a, d) && BlockDominates(p, d, y) && d != y
    ensures BlockDominates(p, a, y) && (ReachableBlock(p, d) ==> a != y)
  {
    forall t | IsTrailTo(p, t, p.entry, y) ensures !t.Avoids(a) {
      var cut := CutAt(p, t, d);
      assert IsTrailTo(p, cut, p.entry, d);
    }
    if a == y && ReachableBlock(p, d) {
      var t :| IsTrailTo(p, t, p.entry, y);
      var s := AroundDominated(p, t, d);
    }
  }

  lemma {:induction false} DefsFromSpan(insts: seq<Inst>, i: nat, k: nat, j: nat)
    requires i <= k <= j <= |insts|
    ensures DefsFrom(insts, k, j) <= DefsFrom(insts, i, j)
    decreases j
  {
    if k < j {
      DefsFromSpan(insts, i, k, j - 1);
    }
  }

  /** Where the run left `d`: at its end, or unwinding at or after its first throwing instruction. */
  ghost predicate Departure(p: Cfg, d: BlockId, y: BlockId, i: nat) {
    i == |Insts(p, d)| || (AfterUnwind(p, d, y) && FirstUnwind(p, d).value <= i < |Insts(p, d)|)
  }

  /** A variable `y` need not forget has, in the tables `d` ended with, the number it had where the run left `d`, or
      one handed out since to no other such variable. */
  lemma UnforgottenVars(p: Cfg, start: Start, d: BlockId, y: BlockId, i: nat)
    requires EntryFrom(p, start, d, y) && Issued(start.at[d]) && Departure(p, d, y, i)
    ensures var base, e := TablesBefore(p, start, Pos(d, i)), TablesBefore(p, start, Pos(d, |Insts(p, d)|));
            var rest := DefsFrom(Insts(p, d), i, |Insts(p, d)|);
            && Issued(base) && Issued(e) && Extends(base, e, rest)
            && (forall v :: v in rest ==> Forgotten(p, d, y, v))
  {
    var n := |Insts(p, d)|;
    NumberSpan(start.at[d], Insts(p, d), i, n);
    if i < n {
      DefsFromSpan(Insts(p, d), FirstUnwind(p, d).value, i, n);
    }
  }

  lemma EntryInjective(p: Cfg, start: Start, d: BlockId, y: BlockId, i: nat)
    requires EntryFrom(p, start, d, y) && Issued(start.at[d]) && Departure(p, d, y, i)
    ensures InjectiveFrom(start.at[y].vars, TablesBefore(p, start, Pos(d, i)).next)
  {
    UnforgottenVars(p, start, d, y, i);
    var t, base, e := start.at[y], TablesBefore(p, start, Pos(d, i)), TablesBefore(p, start, Pos(d, |Insts(p, d)|));
    forall v, w | v in t.vars && w in t.vars && v != w && t.vars[v] >= base.next && t.vars[w] >= base.next
      ensures t.vars[v] != t.vars[w]
    {
      if !Forgotten(p, d, y, v) {
        assert e.vars[v] == t.vars[v] && e.vars[v] < e.next;
      }
      if !Forgotten(p, d, y, w) {
        assert e.vars[w] == t.vars[w] && e.vars[w] < e.next;
      }
    }
  }

  lemma EntryVars(p: Cfg, start: Start, d: BlockId, y: BlockId, i: nat, nu: Valuation, mu: Valuation, s: Store, s': Store)
    requires EntryFrom(p, start, d, y) && Issued(start.at[d]) && Departure(p, d, y, i)
    requires VarsHold(TablesBefore(p, start, Pos(d, i)), nu, s)
    requires forall v :: !SideDefinition(p, d, y, v) ==> Read(s', v) == Read(s, v)
    requires AgreeBelow(nu, mu, TablesBefore(p, start, Pos(d, i)).next)
    requires forall v :: v in start.at[y].vars && start.at[y].vars[v] >= TablesBefore(p, start, Pos(d, i)).next ==>
               Val(mu, start.at[y].vars[v]) == Read(s', v)
    ensures VarsHold(start.at[y], mu, s')
  {
    UnforgottenVars(p, start, d, y, i);
    var t, base, e := start.at[y], TablesBefore(p, start, Pos(d, i)), TablesBefore(p, start, Pos(d, |Insts(p, d)|));
    forall v | v in t.vars ensures Val(mu, t.vars[v]) == Read(s', v) {
      if t.vars[v] < base.next {
        assert !Forgotten(p, d, y, v);
        assert e.vars[v] == t.vars[v];
        assert v in base.vars && base.vars[v] == e.vars[v];
      }
    }
  }

  /** An expression `y` starts with was available, under the same number, where the run left `d`. */
  lemma EntryKeys(p: Cfg, start: Start, d: BlockId, y: BlockId, i: nat, key: Key)
    requires EntryFrom(p, start, d, y) && Issued(start.at[d]) && Departure(p, d, y, i) && key in start.at[y].exprs
    ensures var base := TablesBefore(p, start, Pos(d, i));
            key in base.exprs && base.exprs[key] == start.at[y].exprs[key]
  {
    var n := |Insts(p, d)|;
    if i < n {
      var first := FirstUnwind(p, d).value;
      HideKeys(start.at[d], Insts(p, d), first, n);
      NumberSpan(start.at[d], Insts(p, d), first, i);
      assert key in TablesAt(start.at[d], Insts(p, d), first).exprs;
    }
  }

  lemma WitnessEnters(p: Cfg, start: Start, sem: Semantics, f: Operator, r: Run, q: Run, y: BlockId, env: int, key: Key,
                      n: VN, c: Value, a: Pos)
    requires q.at.block in start.at && Issued(start.at[q.at.block]) && InRange(p, q.at)
    requires y in start.idom && q.at.block == start.idom[y] && LeftAt(p, sem, f, r, q, start.idom[y], y)
    requires BlockDominates(p, start.idom[y], y) && start.idom[y] != y && ReachableBlock(p, start.idom[y])
    requires key in TablesBefore(p, start, q.at).exprs && Witness(p, start, sem, f, q, key, n, c, a)
    ensures Witness(p, start, sem, f, Step(r, Pos(y, 0), env), key, n, c, a)
  {
    DominatesTrans(p, a.block, start.idom[y], y);
    OriginEnters(p, start, q.at, y, key, a);
  }

  lemma OriginEnters(p: Cfg, start: Start, at: Pos, y: BlockId, key: Key, a: Pos)
    requires at.block in start.at && at.idx <= |Insts(p, at.block)| && Issued(start.at[at.block])
    requires y in start.idom && at.block == start.idom[y] && a.block != y
    requires key in TablesBefore(p, start, at).exprs && exists steps: nat :: Origin(p, start, at, key, a, steps)
    ensures exists steps: nat :: Origin(p, start, Pos(y, 0), key, a, steps)
  {
    OriginAtEnd(p, start, at, key, a);
    var steps: nat :| Origin(p, start, Pos(at.block, |Insts(p, at.block)|), key, a, steps);
    assert Origin(p, start, Pos(y, 0), key, a, steps + 1);
  }

  lemma EntryKeyHolds(p: Cfg, start: Start, sem: Semantics, f: Operator, r: Run, q: Run, y: BlockId, nu: Valuation,
                      mu: Valuation, env: int, key: Key)
    requires p.WellFormed() && IsRun(p, q) && InRange(p, q.at) && y in start.idom && q.at.block == start.idom[y]
    requires var d := start.idom[y];
             && EntryFrom(p, start, d, y) && LeftAt(p, sem, f, r, q, d, y) && Departure(p, d, y, q.at.idx)
             && BlockDominates(p, d, y) && d != y && ReachableBlock(p, d)
    requires Describes(p, start, sem, f, q, nu) && AgreeBelow(nu, mu, TablesBefore(p, start, q.at).next)
    requires key in start.at[y].exprs
    ensures KeyHolds(p, start, sem, f, Step(r, Pos(y, 0), env), mu, key, start.at[y].exprs[key])
  {
    var d, base := start.idom[y], TablesBefore(p, start, q.at);
    var n, next := start.at[y].exprs[key], Step(r, Pos(y, 0), env);
    EntryKeys(p, start, d, y, q.at.idx, key);
    TablesIssued(p, start, q.at);
    assert KeyHolds(p, start, sem, f, q, nu, key, base.exprs[key]);
    forall a | Witness(p, start, sem, f, q, key, n, Val(nu, n), a)
      ensures Witness(p, start, sem, f, next, key, n, Val(nu, n), a)
    {
      WitnessEnters(p, start, sem, f, r, q, y, env, key, n, Val(nu, n), a);
    }
    KeyCarries(p, start, sem, f, q, next, nu, mu, base.next, key, n);
  }

  /** Entering `y`, its starting tables describe the store: what they took from its immediate dominator has not
      changed since the run left it, and the rest is numbered afresh. */
  lemma EntryDescribes(p: Cfg, start: Start, sem: Semantics, f: Operator, r: Run, q: Run, y: BlockId, nu: Valuation, env: int)
    returns (mu: Valuation)
    requires p.WellFormed() && IsRun(p, r) && y != p.entry
    requires HandedDown(p, start, y)
    requires LeftAt(p, sem, f, r, q, start.idom[y], y) && Describes(p, start, sem, f, q, nu)
    ensures Describes(p, start, sem, f, Step(r, Pos(y, 0), env), mu)
  {
    RunInRange(p, q);
    mu := EntryValuation(p, start, start.idom[y], y, q.at.idx, nu, StoreOf(p, sem, q), StoreOf(p, sem, r));
    EntryKeysHold(p, start, sem, f, r, q, y, nu, mu, env);
    assert TablesBefore(p, start, Pos(y, 0)) == start.at[y];
  }

  lemma EntryValuation(p: Cfg, start: Start, d: BlockId, y: BlockId, i: nat, nu: Valuation, s: Store, s': Store)
    returns (mu: Valuation)
    requires EntryFrom(p, start, d, y) && Issued(start.at[d]) && Departure(p, d, y, i)
    requires VarsHold(TablesBefore(p, start, Pos(d, i)), nu, s)
    requires forall v :: !SideDefinition(p, d, y, v) ==> Read(s', v) == Read(s, v)
    ensures AgreeBelow(nu, mu, TablesBefore(p, start, Pos(d, i)).next) && VarsHold(start.at[y], mu, s')
  {
    EntryInjective(p, start, d, y, i);
    mu := Fill(nu, start.at[y].vars, TablesBefore(p, start, Pos(d, i)).next, s');
    EntryVars(p, start, d, y, i, nu, mu, s, s');
  }

  lemma EntryKeysHold(p: Cfg, start: Start, sem: Semantics, f: Operator, r: Run, q: Run, y: BlockId, nu: Valuation,
                      mu: Valuation, env: int)
    requires p.WellFormed() && IsRun(p, q) && InRange(p, q.at) && HandedDown(p, start, y)
    requires LeftAt(p, sem, f, r, q, start.idom[y], y) && Describes(p, start, sem, f, q, nu)
    requires AgreeBelow(nu, mu, TablesBefore(p, start, q.at).next)
    ensures KeysHold(p, start, sem, f, Step(r, Pos(y, 0), env), start.at[y], mu)
  {
    forall key | key in start.at[y].exprs
      ensures KeyHolds(p, start, sem, f, Step(r, Pos(y, 0), env), mu, key, start.at[y].exprs[key])
    {
      EntryKeyHolds(p, start, sem, f, r, q, y, nu, mu, env, key);
    }
  }

  /** At every point of every run the tables describe the store. */
  lemma {:induction false} RunDescribes(p: Cfg, start: Start, sem: Semantics, f: Operator, r: Run) returns (nu: Valuation)
    requires p.WellFormed() && p.Contracts() && AllDeterministic(p, sem, f) && NumberingOk(p, start) && IsRun(p, r)
    ensures Describes(p, start, sem, f, r, nu)
  {
    nu := map[];
    match r
    case Enter(_, _) =>
    case Step(prev, at, env) =>
      RunInRange(p, prev);
      if Execs(p, prev.at, at) {
        nu := RunDescribes(p, start, sem, f, prev);
        nu := ExecDescribes(p, start, sem, f, prev, nu, env);
      } else if at.block != p.entry {
        var t := RunTrail(p, r);
        var y := at.block;
        assert ReachableBlock(p, y) && HandedDown(p, start, y);
        var q := Since(p, sem, f, prev, start.idom[y], y, Arrive(y));
        nu := RunDescribes(p, start, sem, f, q);
        nu := EntryDescribes(p, start, sem, f, prev, q, y, nu, env);
      }
  }

  /** Whenever a redundant instruction is about to run, the instruction that introduced its number has run, and what
      that one computed last is what this one computes. */
  lemma RedundantOnRun(p: Cfg, start: Start, sem: Semantics, f: Operator, r: Run) returns (a: Pos)
    requires p.WellFormed() && p.Contracts() && AllDeterministic(p, sem, f) && NumberingOk(p, start) && IsRun(p, r)
    requires AtInst(p, r.at) && r.at.block in start.at && NumberingOf(p, start, r.at).redundant
    ensures var key := KeyOf(TablesBefore(p, start, r.at), InstAt(p, r.at));
            var n := NumberingOf(p, start, r.at).value;
            && n.Some? && Introduces(p, start, a, key, n.value) && Executed(r, a)
            && LastValue(p, sem, f, r, a) == f(InstAt(p, r.at).op, ReadAll(StoreOf(p, sem, r), InstAt(p, r.at).uses))
            && exists steps: nat :: Origin(p, start, r.at, key, a, steps)
  {
    RunInRange(p, r);
    var nu := RunDescribes(p, start, sem, f, r);
    var t, inst := TablesBefore(p, start, r.at), InstAt(p, r.at);
    TablesIssued(p, start, r.at);
    SeeAllStep(t, inst.uses);
    var key := KeyOf(t, inst);
    var n := t.exprs[key];
    assert KeyHolds(p, start, sem, f, r, nu, key, n);
    a :| Witness(p, start, sem, f, r, key, n, Val(nu, n), a);
    var mu := ExecDescribes(p, start, sem, f, r, nu, 0);
  }

  /** Global value numbering is sound on every run, loops and unwinds included. A redundant instruction at a reachable
      point has one earlier instruction with its value number that every run to it has executed, and whenever it runs
      it computes exactly the value that instruction computed last. */
  lemma GlobalNumberingSound(p: Cfg, start: Start, sem: Semantics, f: Operator, at: Pos) returns (a: Pos)
    requires p.WellFormed() && p.Contracts() && AllDeterministic(p, sem, f) && NumberingOk(p, start)
    requires forall y :: y in start.at ==> Issued(start.at[y])
    requires ReachablePos(p, at) && AtInst(p, at) && at.block in start.at && NumberingOf(p, start, at).redundant
    ensures AtInst(p, a) && a.block in start.at && !NumberingOf(p, start, a).redundant
    ensures NumberingOf(p, start, a).value == NumberingOf(p, start, at).value != None
    ensures forall r :: IsRun(p, r) && r.at == at ==>
              && Executed(r, a)
              && f(InstAt(p, at).op, ReadAll(StoreOf(p, sem, r), InstAt(p, at).uses)) == LastValue(p, sem, f, r, a)
  {
    var first :| IsRun(p, first) && first.at == at;
    a := RedundantOnRun(p, start, sem, f, first);
    var key := KeyOf(TablesBefore(p, start, at), InstAt(p, at));
    var m: nat :| Origin(p, start, at, key, a, m);
    forall r | IsRun(p, r) && r.at == at
      ensures Executed(r, a)
      ensures f(InstAt(p, at).op, ReadAll(StoreOf(p, sem, r), InstAt(p, at).uses)) == LastValue(p, sem, f, r, a)
    {
      var b := RedundantOnRun(p, start, sem, f, r);
      var n: nat :| Origin(p, start, at, key, b, n);
      OriginUnique(p, start, at, key, a, b, m, n);
    }
  }
}
