/** Paths read from the front, and the part of a run since it last stood in a dominating block. */
module Ways {
  import opened Wrappers
  import opened Program
  import opened Trails

  /** A path of blocks, oldest first. */
  datatype Way = Arrive(at: BlockId) | Hop(at: BlockId, rest: Way)
  {
    function End(): BlockId { if Arrive? then at else rest.End() }
    predicate Avoids(b: BlockId) { at != b && (Hop? ==> rest.Avoids(b)) }
  }

  ghost predicate IsWay(p: Cfg, w: Way) {
    w.Hop? ==> IsWay(p, w.rest) && Succ(p, w.at, w.rest.at)
  }

  /** `z` lies on a path to `y` that keeps clear of `d`. */
  ghost predicate Between(p: Cfg, d: BlockId, y: BlockId, z: BlockId) {
    ReachableBlock(p, z) && exists w: Way :: IsWay(p, w) && w.Hop? && w.at == z && w.End() == y && w.Avoids(d)
  }

  function Append(t: Trail, w: Way): Trail
    decreases w
  {
    match w
    case Arrive(_) => t
    case Hop(_, rest) => Append(To(t, rest.at), rest)
  }

  lemma {:induction false} AppendIsTrail(p: Cfg, t: Trail, w: Way, avoid: BlockId)
    requires IsTrail(p, t) && IsWay(p, w) && t.at == w.at && w.Avoids(avoid)
    ensures IsTrail(p, Append(t, w)) && Append(t, w).at == w.End() && Append(t, w).First() == t.First()
    ensures t.Avoids(avoid) ==> Append(t, w).Avoids(avoid)
    decreases w
  {
    if w.Hop? {
      AppendIsTrail(p, To(t, w.rest.at), w.rest, avoid);
    }
  }

  /** A reachable block that strictly dominates `d` is reached without entering `d`. */
  lemma {:induction false} AroundDominated(p: Cfg, t: Trail, d: BlockId) returns (s: Trail)
    requires IsTrailTo(p, t, p.entry, t.at) && BlockDominates(p, t.at, d) && t.at != d
    ensures IsTrailTo(p, s, p.entry, t.at) && s.Avoids(d)
    decreases t
  {
    if t.Avoids(d) {
      s := t;
    } else {
      var cut := CutAt(p, t, d);
      assert IsTrailTo(p, cut, p.entry, d);
      var shorter := CutAt(p, cut, t.at);
      s := AroundDominated(p, shorter, d);
    }
  }

  /** A block that dominates `d` lies on no path to `y` clear of `d`, when `d` dominates `y`. */
  lemma DominatorsNotBetween(p: Cfg, a: BlockId, d: BlockId, y: BlockId)
    requires BlockDominates(p, a, d) && BlockDominates(p, d, y) && d != y && ReachableBlock(p, d)
    ensures !Between(p, d, y, a)
  {
    if Between(p, d, y, a) {
      var w: Way :| IsWay(p, w) && w.Hop? && w.at == a && w.End() == y && w.Avoids(d);
      var t :| IsTrailTo(p, t, p.entry, a);
      var s := AroundDominated(p, t, d);
      AppendIsTrail(p, s, w, d);
      assert IsTrailTo(p, Append(s, w), p.entry, y);
    }
  }
}

/** What a value number stands for along a run. */
module NumberingMeaning {
  import opened Wrappers
  import opened Program
  import opened Trails
  import opened Ways
  import opened Numbering

  /** The value an operator computes from its operands. */
  type Operator = (int, seq<Value>) -> Value

  /** A pure instruction's results depend on its operator and operands alone, and all its definitions get one value. */
  ghost predicate Deterministic(sem: Semantics, f: Operator, inst: Inst) {
    IsNumbered(inst) ==>
      forall s, env, j :: 0 <= j < |Results(sem, inst, s, env)| ==>
        Results(sem, inst, s, env)[j] == f(inst.op, ReadAll(s, inst.uses))
  }

  ghost predicate AllDeterministic(p: Cfg, sem: Semantics, f: Operator) {
    forall b, i :: b in p.blocks && 0 <= i < |p.blocks[b]| ==> Deterministic(sem, f, p.blocks[b][i])
  }

  /** The value the instruction at `a` computed when it last ran. */
  function LastValue(p: Cfg, sem: Semantics, f: Operator, r: Run, a: Pos): Value {
    match r
    case Enter(_, _) => 0
    case Step(prev, at, _) =>
      if AtInst(p, a) && prev.at == a && at == After(a)
      then f(InstAt(p, a).op, ReadAll(StoreOf(p, sem, prev), InstAt(p, a).uses))
      else LastValue(p, sem, f, prev, a)
  }

  /** The tables each block starts from, and the dominator tree they were handed down. */
  datatype Start = Start(idom: map<BlockId, BlockId>, at: map<BlockId, Tables>)

  function TablesBefore(p: Cfg, start: Start, a: Pos): Tables
    requires a.block in start.at && a.idx <= |Insts(p, a.block)|
  {
    TablesAt(start.at[a.block], Insts(p, a.block), a.idx)
  }

  function NumberingOf(p: Cfg, start: Start, a: Pos): Numbered
    requires a.block in start.at && AtInst(p, a)
  {
    NumberedAt(start.at[a.block], Insts(p, a.block), a.idx)
  }

  /** The instruction at `a` was the first to compute `key`, as number `n`. */
  predicate Introduces(p: Cfg, start: Start, a: Pos, key: Key, n: VN) {
    a.block in start.at && AtInst(p, a) && NumberingOf(p, start, a) == Numbered(Some(n), false, Some(key))
  }

  /** No instruction of the block before `at` introduced `key`. */
  ghost predicate NotIntroduced(p: Cfg, start: Start, at: Pos, key: Key) {
    forall a: Pos, n {:trigger Introduces(p, start, a, key, n)} ::
      a.block == at.block && a.idx < at.idx ==> !Introduces(p, start, a, key, n)
  }

  /** Looking up the dominator tree from `at`, the nearest instruction that introduced `key` is the one at `a`. */
  ghost predicate Origin(p: Cfg, start: Start, at: Pos, key: Key, a: Pos, steps: nat)
    decreases steps
  {
    if a.block == at.block then a.idx < at.idx && exists n :: Introduces(p, start, a, key, n)
    else
      && steps > 0 && NotIntroduced(p, start, at, key) && at.block in start.idom
      && Origin(p, start, Pos(start.idom[at.block], |Insts(p, start.idom[at.block])|), key, a, steps - 1)
  }

  /** A valuation: what each number stands for. */
  type Valuation = map<VN, Value>

  function Val(nu: Valuation, n: VN): Value { if n in nu then nu[n] else 0 }

  function Vals(nu: Valuation, ns: seq<VN>): seq<Value> {
    seq(|ns|, i requires 0 <= i < |ns| => Val(nu, ns[i]))
  }

  ghost predicate AgreeBelow(nu: Valuation, mu: Valuation, m: nat) {
    forall n: nat :: n < m ==> Val(nu, n) == Val(mu, n)
  }

  /** A dominating instruction introduced `key`, has run, and last computed what the number stands for. */
  ghost predicate Witness(p: Cfg, start: Start, sem: Semantics, f: Operator, r: Run, key: Key, n: VN, c: Value, a: Pos) {
    && Introduces(p, start, a, key, n) && BlockDominates(p, a.block, r.at.block) && Executed(r, a)
    && LastValue(p, sem, f, r, a) == c
    && exists steps: nat :: Origin(p, start, r.at, key, a, steps)
  }

  ghost predicate KeyHolds(p: Cfg, start: Start, sem: Semantics, f: Operator, r: Run, nu: Valuation, key: Key, n: VN) {
    && Val(nu, n) == f(key.op, Vals(nu, key.operands))
    && exists a :: Witness(p, start, sem, f, r, key, n, Val(nu, n), a)
  }

  ghost predicate VarsHold(t: Tables, nu: Valuation, s: Store) {
    forall v {:trigger t.vars[v]} :: v in t.vars ==> Val(nu, t.vars[v]) == Read(s, v)
  }

  ghost predicate KeysHold(p: Cfg, start: Start, sem: Semantics, f: Operator, r: Run, t: Tables, nu: Valuation) {
    forall key {:trigger t.exprs[key]} :: key in t.exprs ==> KeyHolds(p, start, sem, f, r, nu, key, t.exprs[key])
  }

  /** The tables before the run's next instruction describe its store. */
  ghost predicate Describes(p: Cfg, start: Start, sem: Semantics, f: Operator, r: Run, nu: Valuation) {
    && r.at.block in start.at && r.at.idx <= |Insts(p, r.at.block)|
    && Issued(start.at[r.at.block])
    && VarsHold(TablesBefore(p, start, r.at), nu, StoreOf(p, sem, r))
    && KeysHold(p, start, sem, f, r, TablesBefore(p, start, r.at), nu)
  }

  /** Distinct variables whose number is `m` or more have distinct numbers. */
  ghost predicate InjectiveFrom(vars: map<Var, VN>, m: nat) {
    forall v, w {:trigger vars[v], vars[w]} ::
      (v in vars && w in vars && v != w && vars[v] >= m && vars[w] >= m) ==> vars[v] != vars[w]
  }

  /** `nu`, with every number from `m` on standing for what its variable holds in `s`. */
  ghost function Fill(nu: Valuation, vars: map<Var, VN>, m: nat, s: Store): (mu: Valuation)
    requires InjectiveFrom(vars, m)
    ensures AgreeBelow(nu, mu, m)
    ensures forall v :: v in vars && vars[v] >= m ==> Val(mu, vars[v]) == Read(s, v)
  {
    nu + map v | v in vars && vars[v] >= m :: vars[v] := Read(s, v)
  }

  lemma ValsAgree(nu: Valuation, mu: Valuation, m: nat, ns: seq<VN>)
    requires AgreeBelow(nu, mu, m) && forall n :: n in ns ==> n < m
    ensures Vals(nu, ns) == Vals(mu, ns)
  {
    assert forall i :: 0 <= i < |ns| ==> ns[i] in ns;
  }

  /** What a key stands for survives any step that leaves its instruction alone. */
  lemma KeyCarries(p: Cfg, start: Start, sem: Semantics, f: Operator, r: Run, q: Run, nu: Valuation, mu: Valuation,
                   m: nat, key: Key, n: VN)
    requires KeyHolds(p, start, sem, f, r, nu, key, n)
    requires AgreeBelow(nu, mu, m) && n < m && forall x :: x in key.operands ==> x < m
    requires forall a :: Witness(p, start, sem, f, r, key, n, Val(nu, n), a) ==>
               Witness(p, start, sem, f, q, key, n, Val(nu, n), a)
    ensures KeyHolds(p, start, sem, f, q, mu, key, n)
  {
    ValsAgree(nu, mu, m, key.operands);
    var a :| Witness(p, start, sem, f, r, key, n, Val(nu, n), a);
    assert Witness(p, start, sem, f, q, key, n, Val(mu, n), a);
  }

  lemma {:induction false} AssignConst(s: Store, targets: seq<Var>, values: seq<Value>, c: Value, v: Var)
    requires |values| == |targets| && forall j :: 0 <= j < |values| ==> values[j] == c
    requires v in targets || Read(s, v) == c
    ensures Read(Assign(s, targets, values), v) == c
    decreases |targets|
  {
    if |targets| != 0 {
      assert v in targets[1..] || v == targets[0] || Read(s, v) == c;
      AssignConst(s[targets[0] := values[0]], targets[1..], values[1..], c, v);
    }
  }

  /** A pure instruction gives every definition the value of its expression. */
  lemma PureWrites(sem: Semantics, f: Operator, inst: Inst, s: Store, env: int, v: Var)
    requires inst.Ok() && IsNumbered(inst) && Deterministic(sem, f, inst) && v in inst.defs
    ensures Read(ExecInst(sem, inst, s, env), v) == f(inst.op, ReadAll(s, inst.uses))
  {
    AssignConst(s, inst.Targets(), Results(sem, inst, s, env), f(inst.op, ReadAll(s, inst.uses)), v);
  }

  /** Once its operands are seen, a pure instruction's key means the value the instruction computes. */
  lemma OperandsHold(t: Tables, inst: Inst, nu: Valuation, s: Store) returns (mu: Valuation)
    requires Issued(t) && VarsHold(t, nu, s)
    ensures AgreeBelow(nu, mu, t.next) && VarsHold(SeeAll(t, inst.uses), mu, s)
    ensures Vals(mu, KeyOf(t, inst).operands) == ReadAll(s, inst.uses)
  {
    var seen := SeeAll(t, inst.uses);
    SeeAllStep(t, inst.uses);
    mu := Fill(nu, seen.vars, t.next, s);
    forall v | v in seen.vars ensures Val(mu, seen.vars[v]) == Read(s, v) {
      if seen.vars[v] < t.next {
        assert v in t.vars && t.vars[v] == seen.vars[v];
      }
    }
    SeenOperands(t, inst, mu, s);
  }

  lemma SeenOperands(t: Tables, inst: Inst, mu: Valuation, s: Store)
    requires Issued(t) && VarsHold(SeeAll(t, inst.uses), mu, s)
    ensures Vals(mu, KeyOf(t, inst).operands) == ReadAll(s, inst.uses)
  {
    SeeAllStep(t, inst.uses);
    forall i | 0 <= i < |inst.uses| ensures Vals(mu, KeyOf(t, inst).operands)[i] == ReadAll(s, inst.uses)[i] {
      assert inst.uses[i] in inst.uses;
    }
  }

  /** The tables after an instruction describe its variables, under a valuation that keeps every earlier number. */
  lemma VarsStep(t: Tables, sem: Semantics, f: Operator, inst: Inst, nu: Valuation, s: Store, env: int)
    returns (mu: Valuation)
    requires Issued(t) && VarsHold(t, nu, s) && inst.Ok() && Deterministic(sem, f, inst)
    requires forall key :: key in t.exprs ==> Val(nu, t.exprs[key]) == f(key.op, Vals(nu, key.operands))
    ensures AgreeBelow(nu, mu, t.next) && VarsHold(NumberInst(t, inst).0, mu, ExecInst(sem, inst, s, env))
    ensures IsNumbered(inst) ==>
              && NumberInst(t, inst).1.value.Some?
              && Val(mu, NumberInst(t, inst).1.value.value) == f(inst.op, ReadAll(s, inst.uses))
              && Vals(mu, KeyOf(t, inst).operands) == ReadAll(s, inst.uses)
  {
    var s', u := ExecInst(sem, inst, s, env), NumberInst(t, inst).0;
    if IsNumbered(inst) {
      mu := PureVarsStep(t, sem, f, inst, nu, s, env);
    } else {
      RedefineAllStep(t, inst.defs);
      mu := Fill(nu, u.vars, t.next, s');
      forall v | v in u.vars ensures Val(mu, u.vars[v]) == Read(s', v) {
        if v !in inst.defs {
          ExecOther(sem, inst, s, env, v);
        }
      }
    }
  }

  lemma PureVarsStep(t: Tables, sem: Semantics, f: Operator, inst: Inst, nu: Valuation, s: Store, env: int)
    returns (mu: Valuation)
    requires Issued(t) && VarsHold(t, nu, s) && inst.Ok() && Deterministic(sem, f, inst) && IsNumbered(inst)
    requires forall key :: key in t.exprs ==> Val(nu, t.exprs[key]) == f(key.op, Vals(nu, key.operands))
    ensures AgreeBelow(nu, mu, t.next) && VarsHold(NumberInst(t, inst).0, mu, ExecInst(sem, inst, s, env))
    ensures NumberInst(t, inst).1.value.Some?
    ensures Val(mu, NumberInst(t, inst).1.value.value) == f(inst.op, ReadAll(s, inst.uses))
    ensures Vals(mu, KeyOf(t, inst).operands) == ReadAll(s, inst.uses)
  {
    var s', u := ExecInst(sem, inst, s, env), NumberInst(t, inst).0;
    var seen, key, c := SeeAll(t, inst.uses), KeyOf(t, inst), f(inst.op, ReadAll(s, inst.uses));
    SeeAllStep(t, inst.uses);
    KeyIssued(t, inst);
    var lambda := OperandsHold(t, inst, nu, s);
    mu := lambda;
    if key in seen.exprs {
      ValsAgree(nu, mu, t.next, key.operands);
      BindAllStep(seen, inst.defs, seen.exprs[key]);
    } else {
      mu := mu[seen.next := c];
      ValsAgree(lambda, mu, seen.next, key.operands);
      BindAllStep(Tables(seen.vars, seen.exprs[key := seen.next], seen.next + 1), inst.defs, seen.next);
    }
    forall v | v in u.vars ensures Val(mu, u.vars[v]) == Read(s', v) {
      if v in inst.defs {
        PureWrites(sem, f, inst, s, env, v);
      } else {
        ExecOther(sem, inst, s, env, v);
        assert u.vars[v] == seen.vars[v];
      }
    }
  }
}
