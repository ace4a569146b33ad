/** Expression trees, what they mean, and the definitions a block records while it is walked. */
module Expressions {
  import opened Wrappers
  import opened Program

  datatype Expr = Leaf(v: Var) | Constant(c: Value) | Sealed(block: BlockId, at: nat) | Op(operator: int, operands: seq<Expr>)

  /** How an instruction decomposes: a constant it loads, an operator over operand variables, or neither. */
  datatype Form = ConstForm(c: Value) | OpForm(operator: int, operands: seq<Var>) | NoForm

  /** What an operator computes. */
  type Operation = (int, seq<Value>) -> Value

  /** The value of a tree in a store; an opaque node stands for the recorded output of its instruction. */
  function Eval(e: Expr, s: Store, outputs: map<nat, Value>, f: Operation): Value {
    match e
    case Leaf(v) => Read(s, v)
    case Constant(c) => c
    case Sealed(_, at) => if at in outputs then outputs[at] else 0
    case Op(operator, operands) => f(operator, seq(|operands|, i requires 0 <= i < |operands| => Eval(operands[i], s, outputs, f)))
  }

  predicate Mentions(e: Expr, v: Var) {
    match e
    case Leaf(u) => u == v
    case Constant(_) => false
    case Sealed(_, _) => false
    case Op(_, operands) => exists i :: 0 <= i < |operands| && Mentions(operands[i], v)
  }

  /** A tree's value depends only on the variables it mentions. */
  lemma {:induction false} EvalAgree(e: Expr, s: Store, t: Store, outputs: map<nat, Value>, f: Operation)
    requires forall v :: Mentions(e, v) ==> Read(s, v) == Read(t, v)
    ensures Eval(e, s, outputs, f) == Eval(e, t, outputs, f)
  {
    if e.Op? {
      forall i | 0 <= i < |e.operands| ensures Eval(e.operands[i], s, outputs, f) == Eval(e.operands[i], t, outputs, f) {
        forall v | Mentions(e.operands[i], v) ensures Read(s, v) == Read(t, v) {
          assert Mentions(e, v);
        }
        EvalAgree(e.operands[i], s, t, outputs, f);
      }
      assert seq(|e.operands|, i requires 0 <= i < |e.operands| => Eval(e.operands[i], s, outputs, f)) ==
             seq(|e.operands|, i requires 0 <= i < |e.operands| => Eval(e.operands[i], t, outputs, f));
    }
  }

  /** The store before instruction `k` of a block entered with `s`. */
  function StoreAt(sem: Semantics, insts: seq<Inst>, envs: seq<int>, s: Store, k: nat): Store
    requires k <= |insts| == |envs|
  {
    if k == 0 then s else ExecInst(sem, insts[k - 1], StoreAt(sem, insts, envs, s, k - 1), envs[k - 1])
  }

  /** What each instruction writes to its first definition. */
  function Outputs(sem: Semantics, insts: seq<Inst>, envs: seq<int>, s: Store): map<nat, Value>
    requires |insts| == |envs|
  {
    map k: nat | 0 <= k < |insts| && insts[k].defs != [] :: Read(StoreAt(sem, insts, envs, s, k + 1), insts[k].defs[0])
  }

  /** A block with a form for every instruction. Operands are among the instruction's uses. */
  ghost predicate Formed(insts: seq<Inst>, forms: seq<Form>) {
    && |insts| == |forms|
    && forall k, m :: 0 <= k < |insts| && forms[k].OpForm? && 0 <= m < |forms[k].operands| ==> forms[k].operands[m] in insts[k].uses
  }

  /** The forms say what the instructions write to their first definition. */
  ghost predicate FormsRight(sem: Semantics, insts: seq<Inst>, forms: seq<Form>, f: Operation) {
    && |insts| == |forms|
    && forall k, s, env {:trigger ExecInst(sem, insts[k], s, env)} :: 0 <= k < |insts| && insts[k].defs != [] ==>
         match forms[k]
         case ConstForm(c) => Read(ExecInst(sem, insts[k], s, env), insts[k].defs[0]) == c
         case OpForm(op, vs) => Read(ExecInst(sem, insts[k], s, env), insts[k].defs[0]) == f(op, ReadAll(s, vs))
         case NoForm => true
  }

  /** Writes one value: to a single variable, or from a single one. */
  predicate OneValue(inst: Inst) {
    if inst.IsTransfer() then forall i :: 0 <= i < |inst.Sources()| ==> inst.Sources()[i] == inst.Sources()[0]
    else forall d :: d in inst.defs ==> d == inst.defs[0]
  }

  /** Every instruction without a form writes one value, so its opaque node has one value to stand for. */
  predicate OneOutput(insts: seq<Inst>, forms: seq<Form>)
    requires |insts| == |forms|
  {
    forall k :: 0 <= k < |insts| && forms[k].NoForm? ==> OneValue(insts[k])
  }

  /** In this execution some value is what the instruction writes to each of its definitions. */
  ghost predicate WritesOne(sem: Semantics, inst: Inst, s: Store, env: int) {
    exists x {:trigger Written(sem, inst, s, env, x)} :: Written(sem, inst, s, env, x)
  }

  predicate Written(sem: Semantics, inst: Inst, s: Store, env: int, x: Value) {
    forall d :: d in inst.defs ==> Read(ExecInst(sem, inst, s, env), d) == x
  }

  /** An alias or copy writes each source to its target. */
  lemma TransferWrites(sem: Semantics, inst: Inst, s: Store, env: int, i: nat)
    requires inst.Ok() && inst.IsTransfer() && i < |inst.Targets()|
    ensures i < |inst.Sources()| && Read(ExecInst(sem, inst, s, env), inst.Targets()[i]) == Read(s, inst.Sources()[i])
  {
    var targets := inst.Targets();
    assert forall j :: 0 <= j < |targets| && j != i ==> targets[j] != targets[i];
    AssignOnce(s, targets, Results(sem, inst, s, env), i);
  }

  lemma OneValueWrites(sem: Semantics, inst: Inst, s: Store, env: int)
    requires inst.Ok() && OneValue(inst)
    ensures inst.defs != [] ==> Written(sem, inst, s, env, Read(ExecInst(sem, inst, s, env), inst.defs[0]))
    ensures WritesOne(sem, inst, s, env)
  {
    if inst.defs == [] {
      assert Written(sem, inst, s, env, 0);
    } else if inst.IsTransfer() {
      var x := Read(s, inst.Sources()[0]);
      forall d | d in inst.defs ensures Read(ExecInst(sem, inst, s, env), d) == x {
        assert d in inst.Targets();
        var i :| 0 <= i < |inst.Targets()| && inst.Targets()[i] == d;
        TransferWrites(sem, inst, s, env, i);
      }
      assert Written(sem, inst, s, env, x) && inst.defs[0] in inst.defs;
    } else {
      assert Written(sem, inst, s, env, Read(ExecInst(sem, inst, s, env), inst.defs[0]));
    }
  }

  lemma {:induction false} AssignSelf(s: Store, targets: seq<Var>, d: Var)
    requires d in targets || Read(s, d) == d
    ensures Read(Assign(s, targets, targets), d) == d
    decreases |targets|
  {
    if targets != [] {
      AssignSelf(s[targets[0] := targets[0]], targets[1..], d);
    }
  }

  /** What every execution writes through the instruction is one value exactly when `OneValue` says so: nothing weaker
      lets one opaque node stand for all of its definitions. */
  lemma OneValueExact(inst: Inst)
    requires inst.Ok()
    ensures OneValue(inst) <==> forall sem, s, env :: WritesOne(sem, inst, s, env)
  {
    if OneValue(inst) {
      forall sem, s, env ensures WritesOne(sem, inst, s, env) {
        OneValueWrites(sem, inst, s, env);
      }
    }
    if forall sem, s, env :: WritesOne(sem, inst, s, env) {
      if inst.IsTransfer() {
        SourcesAgree(inst);
      } else {
        DefinitionsAgree(inst);
      }
    }
  }

  lemma DefinitionsAgree(inst: Inst)
    requires !inst.IsTransfer() && forall sem, s, env :: WritesOne(sem, inst, s, env)
    ensures OneValue(inst)
  {
    var sem: Semantics := (op, env, inputs, j: nat) => if j < |inst.defs| then inst.defs[j] else 0;
    assert Results(sem, inst, map[], 0) == inst.defs;
    assert WritesOne(sem, inst, map[], 0);
    var x :| Written(sem, inst, map[], 0, x);
    forall d | d in inst.defs ensures d == x {
      AssignSelf(map[], inst.defs, d);
      assert Read(ExecInst(sem, inst, map[], 0), d) == x;
    }
    assert inst.defs != [] ==> inst.defs[0] in inst.defs;
  }

  lemma SourcesAgree(inst: Inst)
    requires inst.Ok() && inst.IsTransfer() && forall sem, s, env :: WritesOne(sem, inst, s, env)
    ensures OneValue(inst)
  {
    var sem: Semantics := (op, env, inputs, j: nat) => 0;
    var s: Store := map v | v in Elems(inst.Sources()) :: v;
    assert WritesOne(sem, inst, s, 0);
    var x :| Written(sem, inst, s, 0, x);
    forall i | 0 <= i < |inst.Sources()| ensures inst.Sources()[i] == x {
      TransferWrites(sem, inst, s, 0, i);
      assert inst.Targets()[i] in inst.Targets() && inst.Sources()[i] in s;
    }
  }

  type Reads = seq<(Var, nat)>

  /** A definition nothing has absorbed yet, with each variable its expression reads and how often the block had defined
      that variable then. */
  datatype Pending = Pending(expression: Expr, seen: Reads)

  /** A definition by its instruction and variable. */
  datatype Def = Def(at: nat, v: Var)

  /** The state of a recovery, with what a reader of it wants to know besides: which instruction made each pending and
      each overwritten definition, and which definition each operand absorbed, by instruction and operand index. */
  datatype Books = Books(pending: map<Var, Pending>, overwritten: seq<(Var, Expr)>, count: map<Var, nat>,
                         madeAt: map<Var, nat>, lostAt: seq<nat>, fed: map<(nat, nat), Def>)

  function Times(count: map<Var, nat>, v: Var): nat { if v in count then count[v] else 0 }

  function Generation(bk: Books, v: Var): nat { Times(bk.count, v) }

  predicate Fresh(bk: Books, seen: Reads) {
    forall i :: 0 <= i < |seen| ==> Generation(bk, seen[i].0) == seen[i].1
  }

  predicate Absorbable(bk: Books, v: Var, single: bool) {
    single && v in bk.pending && Fresh(bk, bk.pending[v].seen)
  }

  /** The books once operand `m` of instruction `k` has absorbed the pending definition of `v`. */
  function Absorb(bk: Books, k: nat, m: nat, v: Var): Books
    requires v in bk.pending && v in bk.madeAt
  {
    bk.(pending := bk.pending - {v}, madeAt := bk.madeAt - {v}, fed := bk.fed[(k, m) := Def(bk.madeAt[v], v)])
  }

  /** What operand `m` of instruction `k` becomes: the pending definition it is the only reader of, or a leaf. */
  function Operand(bk: Books, k: nat, m: nat, v: Var, single: bool): (Books, Expr, Reads)
    requires bk.madeAt.Keys == bk.pending.Keys
  {
    if Absorbable(bk, v, single) then (Absorb(bk, k, m, v), bk.pending[v].expression, bk.pending[v].seen)
    else (bk, Leaf(v), [(v, Generation(bk, v))])
  }

  /** What the first `m` operands become. */
  function Operands(bk: Books, k: nat, vs: seq<Var>, uses: map<Var, nat>, m: nat): (r: (Books, seq<Expr>, Reads))
    requires bk.madeAt.Keys == bk.pending.Keys && m <= |vs|
    ensures r.0.madeAt.Keys == r.0.pending.Keys && |r.1| == m
  {
    if m == 0 then (bk, [], [])
    else
      var before := Operands(bk, k, vs, uses, m - 1);
      var (after, e, seen) := Operand(before.0, k, m - 1, vs[m - 1], SingleUse(uses, vs[m - 1]));
      (after, before.1 + [e], before.2 + seen)
  }

  predicate SingleUse(uses: map<Var, nat>, v: Var) { v in uses && uses[v] == 1 }

  function Redefine(bk: Books, d: Var): Books
    requires bk.madeAt.Keys == bk.pending.Keys
  {
    var counted := bk.(count := bk.count[d := Generation(bk, d) + 1]);
    if d !in bk.pending then counted
    else counted.(pending := bk.pending - {d}, madeAt := bk.madeAt - {d},
                  overwritten := bk.overwritten + [(d, bk.pending[d].expression)], lostAt := bk.lostAt + [bk.madeAt[d]])
  }

  function RedefineAll(bk: Books, defs: seq<Var>): (r: Books)
    requires bk.madeAt.Keys == bk.pending.Keys
    ensures r.madeAt.Keys == r.pending.Keys
  {
    if defs == [] then bk else Redefine(RedefineAll(bk, defs[..|defs| - 1]), defs[|defs| - 1])
  }

  function Record(bk: Books, k: nat, d: Var, p: Pending): Books {
    bk.(pending := bk.pending[d := p], madeAt := bk.madeAt[d := k])
  }

  function RecordAll(bk: Books, k: nat, defs: seq<Var>, p: Pending): (r: Books)
    requires bk.madeAt.Keys == bk.pending.Keys
    ensures r.madeAt.Keys == r.pending.Keys
  {
    if defs == [] then bk else Record(RecordAll(bk, k, defs[..|defs| - 1], p), k, defs[|defs| - 1], p)
  }

  function ReadsOf(bk: Books, vs: seq<Var>): Reads {
    seq(|vs|, i requires 0 <= i < |vs| => (vs[i], Generation(bk, vs[i])))
  }

  /** The definition instruction `k` makes, and the books once its operands are taken. */
  function Define(bk: Books, block: BlockId, k: nat, inst: Inst, form: Form, uses: map<Var, nat>): (r: (Books, Pending))
    requires bk.madeAt.Keys == bk.pending.Keys
    ensures r.0.madeAt.Keys == r.0.pending.Keys
  {
    match form
    case ConstForm(c) => (bk, Pending(Constant(c), []))
    case OpForm(op, vs) =>
      var (after, operands, seen) := Operands(bk, k, vs, uses, |vs|);
      (after, Pending(Op(op, operands), seen))
    case NoForm => (bk, Pending(Sealed(block, k), ReadsOf(bk, inst.uses)))
  }

  /** The definitions instruction `k` records: its first, or all of an opaque instruction. */
  function RecordedDefs(inst: Inst, form: Form): seq<Var> {
    if form.NoForm? || inst.defs == [] then inst.defs else [inst.defs[0]]
  }

  function Walk(bk: Books, block: BlockId, k: nat, inst: Inst, form: Form, uses: map<Var, nat>): (r: Books)
    requires bk.madeAt.Keys == bk.pending.Keys
    ensures r.madeAt.Keys == r.pending.Keys
  {
    var (taken, made) := Define(bk, block, k, inst, form, uses);
    RecordAll(RedefineAll(taken, inst.defs), k, RecordedDefs(inst, form), made)
  }

  /** The books before instruction `k`. */
  function BooksAt(block: BlockId, insts: seq<Inst>, forms: seq<Form>, uses: map<Var, nat>, k: nat): (r: Books)
    requires k <= |insts| == |forms|
    ensures r.madeAt.Keys == r.pending.Keys
  {
    if k == 0 then Books(map[], [], map[], map[], [], map[])
    else Walk(BooksAt(block, insts, forms, uses, k - 1), block, k - 1, insts[k - 1], forms[k - 1], uses)
  }
}

/** What every recovered tree means. */
module ExpressionMeaning {
  import opened Wrappers
  import opened Program
  import opened Expressions

  /** One execution of a block: its instructions and their forms, and the store and environments it runs in. */
  datatype Execution = Execution(block: BlockId, insts: seq<Inst>, forms: seq<Form>, uses: map<Var, nat>, sem: Semantics,
                             envs: seq<int>, start: Store, f: Operation)
  {
    ghost predicate Ok() {
      && |insts| == |forms| == |envs| && FormsRight(sem, insts, forms, f) && OneOutput(insts, forms)
      && forall k :: 0 <= k < |insts| ==> insts[k].Ok()
    }

    ghost function At(k: nat): Store
      requires |insts| == |envs| && k <= |insts|
    {
      StoreAt(sem, insts, envs, start, k)
    }

    ghost function ValueOf(e: Expr, k: nat): Value
      requires |insts| == |envs| && k <= |insts|
    {
      Eval(e, At(k), Outputs(sem, insts, envs, start), f)
    }

    /** Evaluated just before instruction `at`, the tree gives what that instruction writes to `v`. */
    ghost predicate Means(e: Expr, at: nat, v: Var) {
      |insts| == |envs| && at < |insts| && ValueOf(e, at) == Read(At(at + 1), v)
    }
  }

  ghost predicate Covers(seen: Reads, e: Expr) {
    forall v :: Mentions(e, v) ==> exists i :: 0 <= i < |seen| && seen[i].0 == v
  }

  /** What a pending definition of `v`, made by instruction `at`, still promises before instruction `k`. */
  ghost predicate PromiseOf(ex: Execution, count: map<Var, nat>, p: Pending, at: nat, k: nat, v: Var)
    requires |ex.insts| == |ex.envs| && k <= |ex.insts|
  {
    && at < k && ex.Means(p.expression, at, v) && Read(ex.At(k), v) == Read(ex.At(at + 1), v) && Covers(p.seen, p.expression)
    && forall i {:trigger p.seen[i]} :: 0 <= i < |p.seen| ==>
         && p.seen[i].1 <= Times(count, p.seen[i].0)
         && (p.seen[i].1 == Times(count, p.seen[i].0) ==> Read(ex.At(k), p.seen[i].0) == Read(ex.At(at), p.seen[i].0))
  }

  ghost predicate AllPromise(ex: Execution, bk: Books, k: nat) {
    && |ex.insts| == |ex.envs| && k <= |ex.insts| && bk.madeAt.Keys == bk.pending.Keys
    && forall v {:trigger bk.pending[v]} :: v in bk.pending ==> PromiseOf(ex, bk.count, bk.pending[v], bk.madeAt[v], k, v)
  }

  ghost predicate LostMean(ex: Execution, bk: Books) {
    && |bk.lostAt| == |bk.overwritten|
    && forall i {:trigger bk.lostAt[i]} :: 0 <= i < |bk.lostAt| ==> ex.Means(bk.overwritten[i].1, bk.lostAt[i], bk.overwritten[i].0)
  }

  /** `after` keeps the books of `bk` but for definitions that have been absorbed. */
  ghost predicate Taken(bk: Books, after: Books) {
    && after.count == bk.count && after.overwritten == bk.overwritten && after.lostAt == bk.lostAt
    && after.madeAt.Keys == after.pending.Keys <= bk.pending.Keys == bk.madeAt.Keys
    && forall v {:trigger after.pending[v]} :: v in after.pending ==>
         after.pending[v] == bk.pending[v] && after.madeAt[v] == bk.madeAt[v]
  }

  lemma TakenPromise(ex: Execution, bk: Books, after: Books, k: nat)
    requires AllPromise(ex, bk, k) && Taken(bk, after)
    ensures AllPromise(ex, after, k)
  {
    forall v | v in after.pending ensures PromiseOf(ex, after.count, after.pending[v], after.madeAt[v], k, v) {
      assert PromiseOf(ex, bk.count, bk.pending[v], bk.madeAt[v], k, v);
    }
  }

  /** An operand has the value its variable has where it is read. */
  lemma OperandMeans(ex: Execution, bk: Books, k: nat, m: nat, v: Var, single: bool)
    requires AllPromise(ex, bk, k)
    ensures var (after, e, seen) := Operand(bk, k, m, v, single);
            && ex.ValueOf(e, k) == Read(ex.At(k), v) && Covers(seen, e) && Fresh(bk, seen) && Taken(bk, after)
  {
    if Absorbable(bk, v, single) {
      var p, at := bk.pending[v], bk.madeAt[v];
      assert PromiseOf(ex, bk.count, p, at, k, v);
      forall u | Mentions(p.expression, u) ensures Read(ex.At(at), u) == Read(ex.At(k), u) {
        var i :| 0 <= i < |p.seen| && p.seen[i].0 == u;
        assert p.seen[i].1 == Generation(bk, u);
      }
      EvalAgree(p.expression, ex.At(at), ex.At(k), Outputs(ex.sem, ex.insts, ex.envs, ex.start), ex.f);
    } else {
      assert [(v, Generation(bk, v))][0].0 == v;
    }
  }

  /** The operands taken so far have the values their variables have before instruction `k`. */
  ghost predicate OperandsHold(ex: Execution, bk: Books, k: nat, vs: seq<Var>, after: Books, es: seq<Expr>, seen: Reads)
    requires |ex.insts| == |ex.envs| && k <= |ex.insts|
  {
    && |es| <= |vs| && Fresh(bk, seen) && Taken(bk, after)
    && forall i {:trigger es[i]} :: 0 <= i < |es| ==> ex.ValueOf(es[i], k) == Read(ex.At(k), vs[i]) && Covers(seen, es[i])
  }

  lemma OperandsStep(ex: Execution, bk: Books, k: nat, vs: seq<Var>, before: Books, es: seq<Expr>, seen: Reads,
                     after: Books, e: Expr, more: Reads)
    requires |ex.insts| == |ex.envs| && k <= |ex.insts| && OperandsHold(ex, bk, k, vs, before, es, seen) && |es| < |vs|
    requires ex.ValueOf(e, k) == Read(ex.At(k), vs[|es|]) && Covers(more, e) && Fresh(before, more) && Taken(before, after)
    ensures OperandsHold(ex, bk, k, vs, after, es + [e], seen + more)
  {
    forall i | 0 <= i < |es| + 1
      ensures ex.ValueOf((es + [e])[i], k) == Read(ex.At(k), vs[i]) && Covers(seen + more, (es + [e])[i])
    {
      if i < |es| {
        assert (es + [e])[i] == es[i];
        CoversMore(seen, more, es[i]);
      } else {
        CoversLater(seen, more, e);
      }
    }
    TakenTrans(bk, before, after);
  }

  lemma TakenTrans(bk: Books, before: Books, after: Books)
    requires Taken(bk, before) && Taken(before, after)
    ensures Taken(bk, after)
  {
  }

  lemma {:induction false} OperandsMean(ex: Execution, bk: Books, k: nat, vs: seq<Var>, m: nat)
    requires AllPromise(ex, bk, k) && m <= |vs|
    ensures var (after, es, seen) := Operands(bk, k, vs, ex.uses, m);
            OperandsHold(ex, bk, k, vs, after, es, seen)
  {
    if m > 0 {
      OperandsMean(ex, bk, k, vs, m - 1);
      var (before, es, seen) := Operands(bk, k, vs, ex.uses, m - 1);
      TakenPromise(ex, bk, before, k);
      OperandMeans(ex, before, k, m - 1, vs[m - 1], SingleUse(ex.uses, vs[m - 1]));
      var (after, e, more) := Operand(before, k, m - 1, vs[m - 1], SingleUse(ex.uses, vs[m - 1]));
      OperandsStep(ex, bk, k, vs, before, es, seen, after, e, more);
    }
  }

  lemma CoversMore(seen: Reads, more: Reads, e: Expr)
    requires Covers(seen, e)
    ensures Covers(seen + more, e)
  {
    forall v | Mentions(e, v) ensures exists i :: 0 <= i < |seen + more| && (seen + more)[i].0 == v {
      var i :| 0 <= i < |seen| && seen[i].0 == v;
      assert (seen + more)[i].0 == v;
    }
  }

  lemma CoversLater(seen: Reads, more: Reads, e: Expr)
    requires Covers(more, e)
    ensures Covers(seen + more, e)
  {
    forall v | Mentions(e, v) ensures exists i :: 0 <= i < |seen + more| && (seen + more)[i].0 == v {
      var i :| 0 <= i < |more| && more[i].0 == v;
      assert (seen + more)[|seen| + i].0 == v;
    }
  }

  /** The definition an instruction makes means what the instruction writes to each variable it is recorded under. */
  lemma DefineMeans(ex: Execution, bk: Books, k: nat)
    requires ex.Ok() && k < |ex.insts| && AllPromise(ex, bk, k)
    ensures var inst, form := ex.insts[k], ex.forms[k];
            var (taken, made) := Define(bk, ex.block, k, inst, form, ex.uses);
            && Taken(bk, taken) && Fresh(bk, made.seen) && Covers(made.seen, made.expression)
            && forall d :: d in RecordedDefs(inst, form) ==> ex.Means(made.expression, k, d)
  {
    hide Operands, Taken, Fresh, Covers, AllPromise, Define;
    match ex.forms[k]
    case ConstForm(_) => ConstMeans(ex, bk, k);
    case OpForm(_, _) => OpFormMeans(ex, bk, k);
    case NoForm => OpaqueMeans(ex, bk, k);
  }

  /** What `DefineMeans` says of one definition. */
  ghost predicate Defined(ex: Execution, bk: Books, k: nat)
    requires k < |ex.insts| && k < |ex.forms| && bk.madeAt.Keys == bk.pending.Keys
  {
    var inst, form := ex.insts[k], ex.forms[k];
    var (taken, made) := Define(bk, ex.block, k, inst, form, ex.uses);
    && Taken(bk, taken) && Fresh(bk, made.seen) && Covers(made.seen, made.expression)
    && forall d :: d in RecordedDefs(inst, form) ==> ex.Means(made.expression, k, d)
  }

  lemma ConstMeans(ex: Execution, bk: Books, k: nat)
    requires ex.Ok() && k < |ex.insts| && AllPromise(ex, bk, k) && ex.forms[k].ConstForm?
    ensures Defined(ex, bk, k)
  {
    assert ex.At(k + 1) == ExecInst(ex.sem, ex.insts[k], ex.At(k), ex.envs[k]);
  }

  lemma OpFormMeans(ex: Execution, bk: Books, k: nat)
    requires ex.Ok() && k < |ex.insts| && AllPromise(ex, bk, k) && ex.forms[k].OpForm?
    ensures Defined(ex, bk, k)
  {
    hide Eval, Outputs, Mentions;
    var inst, form := ex.insts[k], ex.forms[k];
    assert ex.At(k + 1) == ExecInst(ex.sem, inst, ex.At(k), ex.envs[k]);
    OperandsMean(ex, bk, k, form.operands, |form.operands|);
    var (after, es, seen) := Operands(bk, k, form.operands, ex.uses, |form.operands|);
    OpMeans(ex, form.operator, es, form.operands, k);
    CoversAll(seen, form.operator, es);
  }

  lemma OpaqueMeans(ex: Execution, bk: Books, k: nat)
    requires ex.Ok() && k < |ex.insts| && AllPromise(ex, bk, k) && ex.forms[k].NoForm?
    ensures Defined(ex, bk, k)
  {
    var inst, form := ex.insts[k], ex.forms[k];
    var (taken, made) := Define(bk, ex.block, k, inst, form, ex.uses);
    OneValueWrites(ex.sem, inst, ex.At(k), ex.envs[k]);
    assert ex.At(k + 1) == ExecInst(ex.sem, inst, ex.At(k), ex.envs[k]);
    forall d | d in inst.defs ensures ex.Means(made.expression, k, d) {
      assert Outputs(ex.sem, ex.insts, ex.envs, ex.start)[k] == Read(ex.At(k + 1), inst.defs[0]);
    }
  }

  lemma OpMeans(ex: Execution, op: int, es: seq<Expr>, vs: seq<Var>, k: nat)
    requires |ex.insts| == |ex.envs| && k <= |ex.insts| && |es| == |vs|
    requires forall i :: 0 <= i < |es| ==> ex.ValueOf(es[i], k) == Read(ex.At(k), vs[i])
    ensures ex.ValueOf(Op(op, es), k) == ex.f(op, ReadAll(ex.At(k), vs))
  {
    var outputs := Outputs(ex.sem, ex.insts, ex.envs, ex.start);
    assert seq(|es|, i requires 0 <= i < |es| => Eval(es[i], ex.At(k), outputs, ex.f)) == ReadAll(ex.At(k), vs) by {
      forall i | 0 <= i < |es| ensures Eval(es[i], ex.At(k), outputs, ex.f) == ReadAll(ex.At(k), vs)[i] {
        assert ex.ValueOf(es[i], k) == Read(ex.At(k), vs[i]);
      }
    }
  }

  lemma CoversAll(seen: Reads, op: int, es: seq<Expr>)
    requires forall i :: 0 <= i < |es| ==> Covers(seen, es[i])
    ensures Covers(seen, Op(op, es))
  {
    forall v | Mentions(Op(op, es), v) ensures exists i :: 0 <= i < |seen| && seen[i].0 == v {
      var j :| 0 <= j < |es| && Mentions(es[j], v);
      assert Covers(seen, es[j]);
    }
  }

  /** Redefining variables keeps the books of every other, and moves what they held to the overwritten. */
  lemma {:induction false} RedefineKeeps(bk: Books, defs: seq<Var>)
    requires bk.madeAt.Keys == bk.pending.Keys && |bk.lostAt| == |bk.overwritten|
    ensures var after := RedefineAll(bk, defs);
            && |after.lostAt| == |after.overwritten| && bk.overwritten <= after.overwritten && bk.lostAt <= after.lostAt
            && after.fed == bk.fed
            && (forall v :: v in after.pending <==> v in bk.pending && v !in defs)
            && (forall v {:trigger after.pending[v]} :: v in after.pending ==>
                  after.pending[v] == bk.pending[v] && after.madeAt[v] == bk.madeAt[v])
            && (forall v {:trigger Generation(after, v)} ::
                  if v in defs then Generation(after, v) > Generation(bk, v) else Generation(after, v) == Generation(bk, v))
            && (forall i {:trigger after.lostAt[i]} :: |bk.lostAt| <= i < |after.lostAt| ==>
                  && after.overwritten[i].0 in bk.pending && after.overwritten[i].0 in defs
                  && after.overwritten[i].1 == bk.pending[after.overwritten[i].0].expression
                  && after.lostAt[i] == bk.madeAt[after.overwritten[i].0])
  {
    if defs != [] {
      RedefineKeeps(bk, defs[..|defs| - 1]);
      assert defs == defs[..|defs| - 1] + [defs[|defs| - 1]];
      var mid, after := RedefineAll(bk, defs[..|defs| - 1]), RedefineAll(bk, defs);
      forall v ensures if v in defs then Generation(after, v) > Generation(bk, v) else Generation(after, v) == Generation(bk, v) {
        assert Generation(mid, v) >= Generation(bk, v);
      }
      forall i | |bk.lostAt| <= i < |after.lostAt|
        ensures after.overwritten[i].0 in bk.pending && after.overwritten[i].0 in defs
        ensures after.overwritten[i].1 == bk.pending[after.overwritten[i].0].expression
        ensures after.lostAt[i] == bk.madeAt[after.overwritten[i].0]
      {
        if i < |mid.lostAt| {
          assert after.lostAt[i] == mid.lostAt[i];
        }
      }
    }
  }

  lemma {:induction false} RecordKeeps(bk: Books, k: nat, defs: seq<Var>, p: Pending)
    requires bk.madeAt.Keys == bk.pending.Keys
    ensures var after := RecordAll(bk, k, defs, p);
            && after.overwritten == bk.overwritten && after.lostAt == bk.lostAt && after.count == bk.count && after.fed == bk.fed
            && (forall v :: v in after.pending <==> v in bk.pending || v in defs)
            && (forall v {:trigger after.pending[v]} :: v in after.pending ==>
                  if v in defs then after.pending[v] == p && after.madeAt[v] == k
                  else after.pending[v] == bk.pending[v] && after.madeAt[v] == bk.madeAt[v])
  {
    if defs != [] {
      RecordKeeps(bk, k, defs[..|defs| - 1], p);
      assert defs == defs[..|defs| - 1] + [defs[|defs| - 1]];
    }
  }

  /** An untouched pending definition keeps its promise through the instruction that runs at `k`. */
  lemma PromiseLasts(ex: Execution, before: map<Var, nat>, after: map<Var, nat>, p: Pending, at: nat, k: nat, v: Var)
    requires ex.Ok() && k < |ex.insts| && PromiseOf(ex, before, p, at, k, v) && v !in ex.insts[k].defs
    requires forall u {:trigger Times(after, u)} ::
               if u in ex.insts[k].defs then Times(after, u) > Times(before, u) else Times(after, u) == Times(before, u)
    ensures PromiseOf(ex, after, p, at, k + 1, v)
  {
    var inst := ex.insts[k];
    forall u | u !in inst.defs ensures Read(ex.At(k + 1), u) == Read(ex.At(k), u) {
      ExecOther(ex.sem, inst, ex.At(k), ex.envs[k], u);
    }
    forall i | 0 <= i < |p.seen|
      ensures p.seen[i].1 <= Times(after, p.seen[i].0)
      ensures p.seen[i].1 == Times(after, p.seen[i].0) ==> Read(ex.At(k + 1), p.seen[i].0) == Read(ex.At(at), p.seen[i].0)
    {
      assert p.seen[i].1 <= Times(before, p.seen[i].0);
    }
  }

  /** A definition just made promises the same. */
  lemma PromiseMade(ex: Execution, before: map<Var, nat>, after: map<Var, nat>, p: Pending, k: nat, v: Var)
    requires ex.Ok() && k < |ex.insts| && ex.Means(p.expression, k, v) && Covers(p.seen, p.expression)
    requires forall i :: 0 <= i < |p.seen| ==> Times(before, p.seen[i].0) == p.seen[i].1
    requires forall u {:trigger Times(after, u)} ::
               if u in ex.insts[k].defs then Times(after, u) > Times(before, u) else Times(after, u) == Times(before, u)
    ensures PromiseOf(ex, after, p, k, k + 1, v)
  {
    forall i | 0 <= i < |p.seen|
      ensures p.seen[i].1 <= Times(after, p.seen[i].0)
      ensures p.seen[i].1 == Times(after, p.seen[i].0) ==> Read(ex.At(k + 1), p.seen[i].0) == Read(ex.At(k), p.seen[i].0)
    {
      var u := p.seen[i].0;
      if Times(after, u) == p.seen[i].1 {
        ExecOther(ex.sem, ex.insts[k], ex.At(k), ex.envs[k], u);
      }
    }
  }

  /** One instruction keeps every promise and the meaning of everything overwritten. */
  lemma WalkMeans(ex: Execution, bk: Books, k: nat)
    requires ex.Ok() && k < |ex.insts| && AllPromise(ex, bk, k) && LostMean(ex, bk)
    ensures var after := Walk(bk, ex.block, k, ex.insts[k], ex.forms[k], ex.uses);
            AllPromise(ex, after, k + 1) && LostMean(ex, after)
  {
    var inst, form := ex.insts[k], ex.forms[k];
    var (taken, made) := Define(bk, ex.block, k, inst, form, ex.uses);
    DefineMeans(ex, bk, k);
    TakenPromise(ex, bk, taken, k);
    var dropped := RedefineAll(taken, inst.defs);
    RedefineKeeps(taken, inst.defs);
    RedefineMeans(ex, taken, dropped, k);
    var after := RecordAll(dropped, k, RecordedDefs(inst, form), made);
    RecordKeeps(dropped, k, RecordedDefs(inst, form), made);
    forall v | v in after.pending ensures PromiseOf(ex, after.count, after.pending[v], after.madeAt[v], k + 1, v) {
      if v in RecordedDefs(inst, form) {
        forall u ensures if u in inst.defs then Times(after.count, u) > Times(bk.count, u)
                         else Times(after.count, u) == Times(bk.count, u)
        {
          assert Generation(dropped, u) == Times(after.count, u);
        }
        PromiseMade(ex, bk.count, after.count, made, k, v);
      } else {
        assert PromiseOf(ex, dropped.count, dropped.pending[v], dropped.madeAt[v], k + 1, v);
      }
    }
  }

  lemma RedefineMeans(ex: Execution, taken: Books, dropped: Books, k: nat)
    requires ex.Ok() && k < |ex.insts| && AllPromise(ex, taken, k) && LostMean(ex, taken)
    requires dropped == RedefineAll(taken, ex.insts[k].defs)
    ensures AllPromise(ex, dropped, k + 1) && LostMean(ex, dropped)
  {
    var inst := ex.insts[k];
    RedefineKeeps(taken, inst.defs);
    forall v | v in dropped.pending ensures PromiseOf(ex, dropped.count, dropped.pending[v], dropped.madeAt[v], k + 1, v) {
      assert PromiseOf(ex, taken.count, taken.pending[v], taken.madeAt[v], k, v);
      forall u ensures if u in inst.defs then Times(dropped.count, u) > Times(taken.count, u)
                       else Times(dropped.count, u) == Times(taken.count, u)
      {
        assert Generation(dropped, u) == Times(dropped.count, u);
      }
      PromiseLasts(ex, taken.count, dropped.count, taken.pending[v], taken.madeAt[v], k, v);
    }
    forall i | 0 <= i < |dropped.lostAt| ensures ex.Means(dropped.overwritten[i].1, dropped.lostAt[i], dropped.overwritten[i].0) {
      if i < |taken.lostAt| {
        assert dropped.lostAt[i] == taken.lostAt[i] && dropped.overwritten[i] == taken.overwritten[i];
      } else {
        var at, v := dropped.lostAt[i], dropped.overwritten[i].0;
        assert v in taken.pending && at == taken.madeAt[v];
        assert PromiseOf(ex, taken.count, taken.pending[v], taken.madeAt[v], k, v);
      }
    }
  }

  ghost predicate BooksMean(ex: Execution, bk: Books, k: nat) { AllPromise(ex, bk, k) && LostMean(ex, bk) }

  ghost predicate MeansBefore(ex: Execution, k: nat) {
    && k <= |ex.insts| == |ex.forms|
    && BooksMean(ex, BooksAt(ex.block, ex.insts, ex.forms, ex.uses, k), k)
  }

  lemma MeanAtStart(ex: Execution)
    requires ex.Ok()
    ensures MeansBefore(ex, 0)
  {
  }

  lemma MeanNext(ex: Execution, k: nat)
    requires ex.Ok() && k < |ex.insts| && MeansBefore(ex, k)
    ensures MeansBefore(ex, k + 1)
  {
    WalkMeans(ex, BooksAt(ex.block, ex.insts, ex.forms, ex.uses, k), k);
  }

  /** Before every instruction, and at the end of the block, every tree, pending or overwritten, evaluated just before
      the instruction that made it, gives what that instruction writes to its variable. */
  lemma {:induction false} BooksAlwaysMean(ex: Execution, k: nat)
    requires ex.Ok() && k <= |ex.insts|
    ensures MeansBefore(ex, k)
  {
    hide MeansBefore;
    if k == 0 {
      MeanAtStart(ex);
    } else {
      BooksAlwaysMean(ex, k - 1);
      MeanNext(ex, k - 1);
    }
  }
}

/** Where every recorded definition ends up. */
module ExpressionAccounting {
  import opened Wrappers
  import opened Program
  import opened Expressions

  function Held(bk: Books): set<Def> { set v | v in bk.madeAt :: Def(bk.madeAt[v], v) }

  function Lost(bk: Books): set<Def>
    requires |bk.lostAt| == |bk.overwritten|
  {
    set i | 0 <= i < |bk.lostAt| :: Def(bk.lostAt[i], bk.overwritten[i].0)
  }

  function Fed(bk: Books): set<Def> { set p | p in bk.fed :: bk.fed[p] }

  function DefsOf(k: nat, vs: seq<Var>): (r: set<Def>)
    ensures forall d :: d in r <==> d.at == k && d.v in vs
  {
    set i | 0 <= i < |vs| :: Def(k, vs[i])
  }

  /** The definitions the first `k` instructions record. */
  function RecordedBy(insts: seq<Inst>, forms: seq<Form>, k: nat): (r: set<Def>)
    requires k <= |insts| == |forms|
    ensures forall d :: d in r <==> d.at < k && d.v in RecordedDefs(insts[d.at], forms[d.at])
  {
    if k == 0 then {}
    else RecordedBy(insts, forms, k - 1) + DefsOf(k - 1, RecordedDefs(insts[k - 1], forms[k - 1]))
  }

  /** Each recorded definition is held, lost, or fed to one operand, and just one of these. */
  ghost predicate Accounted(bk: Books, recorded: set<Def>) {
    && bk.madeAt.Keys == bk.pending.Keys && |bk.lostAt| == |bk.overwritten|
    && Held(bk) + Lost(bk) + Fed(bk) == recorded
    && Held(bk) !! Lost(bk) && Held(bk) !! Fed(bk) && Lost(bk) !! Fed(bk)
    && (forall p, q :: p in bk.fed && q in bk.fed && p != q ==> bk.fed[p] != bk.fed[q])
  }

  /** The definitions of one variable are overwritten in the order they were made, the one held last. */
  ghost predicate InOrder(bk: Books) {
    && |bk.lostAt| == |bk.overwritten|
    && (forall i, j :: 0 <= i < j < |bk.lostAt| && bk.overwritten[i].0 == bk.overwritten[j].0 ==> bk.lostAt[i] < bk.lostAt[j])
    && (forall i :: 0 <= i < |bk.lostAt| && bk.overwritten[i].0 in bk.madeAt ==> bk.lostAt[i] < bk.madeAt[bk.overwritten[i].0])
  }

  /** Dropping one variable drops its definition and no other. */
  lemma HeldWithout(bk: Books, after: Books, v: Var)
    requires v in bk.madeAt && after.madeAt == bk.madeAt - {v}
    ensures Held(after) == Held(bk) - {Def(bk.madeAt[v], v)}
  {
    forall x | x in Held(bk) && x != Def(bk.madeAt[v], v) ensures x in Held(after) {
      assert x.v in after.madeAt && after.madeAt[x.v] == x.at;
    }
    forall x | x in Held(after) ensures x in Held(bk) && x != Def(bk.madeAt[v], v) {
      assert x.v in after.madeAt && after.madeAt[x.v] == x.at;
      assert bk.madeAt[x.v] == x.at;
    }
  }

  lemma AbsorbAccounts(bk: Books, k: nat, m: nat, v: Var, recorded: set<Def>)
    requires Accounted(bk, recorded) && v in bk.pending && (k, m) !in bk.fed
    ensures Accounted(Absorb(bk, k, m, v), recorded)
  {
    var after, d := Absorb(bk, k, m, v), Def(bk.madeAt[v], v);
    assert d in Held(bk);
    HeldWithout(bk, after, v);
    assert Fed(after) == Fed(bk) + {d} by {
      assert after.fed[(k, m)] == d;
      forall p | p in bk.fed ensures bk.fed[p] in Fed(after) {
        assert after.fed[p] == bk.fed[p];
      }
    }
    assert Lost(after) == Lost(bk);
    forall p, q | p in after.fed && q in after.fed && p != q ensures after.fed[p] != after.fed[q] {
      if p == (k, m) {
        assert bk.fed[q] in Fed(bk);
      } else if q == (k, m) {
        assert bk.fed[p] in Fed(bk);
      }
    }
  }

  lemma RedefineAccounts(bk: Books, d: Var, recorded: set<Def>)
    requires Accounted(bk, recorded) && InOrder(bk)
    ensures Accounted(Redefine(bk, d), recorded) && InOrder(Redefine(bk, d)) && d !in Redefine(bk, d).pending
    ensures Redefine(bk, d).fed == bk.fed && Redefine(bk, d).pending.Keys <= bk.pending.Keys
  {
    var after := Redefine(bk, d);
    if d in bk.pending {
      var made := Def(bk.madeAt[d], d);
      assert made in Held(bk);
      HeldWithout(bk, after, d);
      assert Lost(after) == Lost(bk) + {made} by {
        assert after.lostAt[|bk.lostAt|] == made.at && after.overwritten[|bk.lostAt|].0 == d;
        forall i | 0 <= i < |bk.lostAt| ensures Def(bk.lostAt[i], bk.overwritten[i].0) in Lost(after) {
          assert after.lostAt[i] == bk.lostAt[i] && after.overwritten[i] == bk.overwritten[i];
        }
      }
      assert Fed(after) == Fed(bk);
    } else {
      assert Held(after) == Held(bk) && Lost(after) == Lost(bk) && Fed(after) == Fed(bk);
    }
  }

  lemma {:induction false} RedefineAllAccounts(bk: Books, defs: seq<Var>, recorded: set<Def>)
    requires Accounted(bk, recorded) && InOrder(bk)
    ensures var after := RedefineAll(bk, defs);
            && Accounted(after, recorded) && InOrder(after) && after.fed == bk.fed
            && after.pending.Keys <= bk.pending.Keys && forall d :: d in defs ==> d !in after.pending
  {
    if defs != [] {
      RedefineAllAccounts(bk, defs[..|defs| - 1], recorded);
      RedefineAccounts(RedefineAll(bk, defs[..|defs| - 1]), defs[|defs| - 1], recorded);
      assert defs == defs[..|defs| - 1] + [defs[|defs| - 1]];
    }
  }

  /** Recording a definition nothing else of the block holds. */
  lemma RecordAccounts(bk: Books, k: nat, d: Var, p: Pending, recorded: set<Def>)
    requires Accounted(bk, recorded) && InOrder(bk) && (d in bk.madeAt ==> bk.madeAt[d] == k)
    requires (forall x :: x in recorded ==> x.at <= k) && (d !in bk.madeAt ==> Def(k, d) !in recorded)
    requires forall i :: 0 <= i < |bk.lostAt| ==> bk.lostAt[i] < k
    ensures Accounted(Record(bk, k, d, p), recorded + {Def(k, d)}) && InOrder(Record(bk, k, d, p))
    ensures d in bk.madeAt ==> recorded + {Def(k, d)} == recorded
  {
    var after := Record(bk, k, d, p);
    assert Held(after) == Held(bk) + {Def(k, d)} by {
      assert after.madeAt[d] == k;
      forall v | v in bk.madeAt ensures Def(bk.madeAt[v], v) in Held(after) {
        assert after.madeAt[v] == bk.madeAt[v];
      }
    }
    assert Lost(after) == Lost(bk) && Fed(after) == Fed(bk);
    if d in bk.madeAt {
      assert Def(k, d) in Held(bk);
    }
  }

  lemma LostBefore(bk: Books, k: nat, recorded: set<Def>)
    requires Accounted(bk, recorded) && InOrder(bk) && forall x :: x in recorded ==> x.at < k
    ensures forall i :: 0 <= i < |bk.lostAt| ==> bk.lostAt[i] < k
  {
    forall i | 0 <= i < |bk.lostAt| ensures bk.lostAt[i] < k {
      assert Def(bk.lostAt[i], bk.overwritten[i].0) in Lost(bk);
    }
  }

  lemma {:induction false} RecordAllAccounts(bk: Books, k: nat, defs: seq<Var>, p: Pending, recorded: set<Def>)
    requires Accounted(bk, recorded) && InOrder(bk) && (forall x :: x in recorded ==> x.at < k)
    requires forall d :: d in defs ==> d !in bk.madeAt
    ensures var after, new' := RecordAll(bk, k, defs, p), DefsOf(k, defs);
            && Accounted(after, recorded + new') && InOrder(after) && after.fed == bk.fed && after.lostAt == bk.lostAt
            && after.overwritten == bk.overwritten
            && (forall v :: v in after.madeAt <==> v in bk.madeAt || v in defs)
            && (forall v :: v in defs ==> after.madeAt[v] == k)
  {
    if defs != [] {
      var most, last := defs[..|defs| - 1], defs[|defs| - 1];
      assert defs == most + [last];
      RecordAllAccounts(bk, k, most, p, recorded);
      var before := RecordAll(bk, k, most, p);
      var so := recorded + DefsOf(k, most);
      LostBefore(bk, k, recorded);
      hide Accounted, InOrder;
      RecordAccounts(before, k, last, p, so);
      assert so + {Def(k, last)} == recorded + DefsOf(k, defs);
    } else {
      assert recorded + (DefsOf(k, defs)) == recorded;
    }
  }

  /** The tree of the definition instruction `at` made, rebuilt from which definitions its operands absorbed. */
  function Rebuild(block: BlockId, forms: seq<Form>, fed: map<(nat, nat), Def>, at: nat): Expr
    requires at < |forms|
    decreases at
  {
    match forms[at]
    case ConstForm(c) => Constant(c)
    case NoForm => Sealed(block, at)
    case OpForm(op, vs) =>
      Op(op, seq(|vs|, m requires 0 <= m < |vs| =>
           if (at, m) in fed && fed[(at, m)].at < at then Rebuild(block, forms, fed, fed[(at, m)].at) else Leaf(vs[m])))
  }

  ghost predicate SameBelow(fed: map<(nat, nat), Def>, fed': map<(nat, nat), Def>, k: nat) {
    forall p: (nat, nat) {:trigger p in fed} {:trigger p in fed'} :: p.0 < k ==>
      (p in fed <==> p in fed') && (p in fed ==> fed[p] == fed'[p])
  }

  /** What later operands absorb does not change an earlier tree. */
  lemma {:induction false} RebuildStable(block: BlockId, forms: seq<Form>, fed: map<(nat, nat), Def>, fed': map<(nat, nat), Def>,
                                         at: nat, k: nat)
    requires at < k && at < |forms| && SameBelow(fed, fed', k)
    ensures Rebuild(block, forms, fed, at) == Rebuild(block, forms, fed', at)
    decreases at
  {
    if forms[at].OpForm? {
      var vs := forms[at].operands;
      forall m | 0 <= m < |vs|
        ensures (if (at, m) in fed && fed[(at, m)].at < at then Rebuild(block, forms, fed, fed[(at, m)].at) else Leaf(vs[m])) ==
                (if (at, m) in fed' && fed'[(at, m)].at < at then Rebuild(block, forms, fed', fed'[(at, m)].at) else Leaf(vs[m]))
      {
        assert ((at, m) in fed <==> (at, m) in fed') && ((at, m) in fed ==> fed[(at, m)] == fed'[(at, m)]);
        if (at, m) in fed && fed[(at, m)].at < at {
          RebuildStable(block, forms, fed, fed', fed[(at, m)].at, k);
        }
      }
      assert Rebuild(block, forms, fed, at).operands == Rebuild(block, forms, fed', at).operands;
    }
  }

  /** Operand `m` of instruction `k` is the tree it absorbed, or a leaf. */
  function OperandTree(block: BlockId, forms: seq<Form>, fed: map<(nat, nat), Def>, k: nat, m: nat, v: Var): Expr {
    if (k, m) in fed && fed[(k, m)].at < |forms| then Rebuild(block, forms, fed, fed[(k, m)].at) else Leaf(v)
  }

  /** Each absorbed definition was made earlier, of the operand's own variable, which the block reads once. Operands of
      instruction `k` from `m` on have absorbed nothing yet. */
  ghost predicate FedRight(forms: seq<Form>, uses: map<Var, nat>, bk: Books, k: nat, m: nat) {
    forall p: (nat, nat) {:trigger bk.fed[p]} :: p in bk.fed ==>
      && (p.0 < k || (p.0 == k && p.1 < m)) && p.0 < |forms| && bk.fed[p].at < p.0 && forms[p.0].OpForm?
      && p.1 < |forms[p.0].operands| && forms[p.0].operands[p.1] == bk.fed[p].v && SingleUse(uses, bk.fed[p].v)
  }

  ghost predicate TreesRight(block: BlockId, forms: seq<Form>, bk: Books, k: nat) {
    && bk.madeAt.Keys == bk.pending.Keys && |bk.lostAt| == |bk.overwritten| && k <= |forms|
    && (forall v {:trigger bk.pending[v]} :: v in bk.pending ==>
          bk.madeAt[v] < k && bk.pending[v].expression == Rebuild(block, forms, bk.fed, bk.madeAt[v]))
    && (forall i {:trigger bk.lostAt[i]} :: 0 <= i < |bk.lostAt| ==>
          bk.lostAt[i] < k && bk.overwritten[i].1 == Rebuild(block, forms, bk.fed, bk.lostAt[i]))
  }

  /** Everything the recovery keeps about where definitions are, before operand `m` of instruction `k`. */
  ghost predicate Kept(block: BlockId, forms: seq<Form>, uses: map<Var, nat>, bk: Books, k: nat, m: nat, recorded: set<Def>) {
    Accounted(bk, recorded) && InOrder(bk) && FedRight(forms, uses, bk, k, m) && TreesRight(block, forms, bk, k)
  }

  lemma AbsorbKeeps(block: BlockId, forms: seq<Form>, uses: map<Var, nat>, bk: Books, k: nat, m: nat, v: Var, recorded: set<Def>)
    requires k < |forms| && forms[k].OpForm? && m < |forms[k].operands| && forms[k].operands[m] == v
    requires Kept(block, forms, uses, bk, k, m, recorded) && v in bk.pending && SingleUse(uses, v)
    ensures Kept(block, forms, uses, Absorb(bk, k, m, v), k, m + 1, recorded)
    ensures SameBelow(bk.fed, Absorb(bk, k, m, v).fed, k)
    ensures bk.pending[v].expression == OperandTree(block, forms, Absorb(bk, k, m, v).fed, k, m, v)
  {
    hide Accounted, Rebuild;
    var after := Absorb(bk, k, m, v);
    assert (k, m) !in bk.fed;
    AbsorbAccounts(bk, k, m, v, recorded);
    TreesStay(block, forms, bk, after, k);
    RebuildStable(block, forms, bk.fed, after.fed, bk.madeAt[v], k);
  }

  /** Taking definitions away and feeding operands of `k` leaves every remaining tree as it was. */
  lemma TreesStay(block: BlockId, forms: seq<Form>, bk: Books, after: Books, k: nat)
    requires TreesRight(block, forms, bk, k) && SameBelow(bk.fed, after.fed, k)
    requires after.madeAt.Keys == after.pending.Keys <= bk.pending.Keys
    requires forall v {:trigger after.pending[v]} :: v in after.pending ==>
               after.pending[v] == bk.pending[v] && after.madeAt[v] == bk.madeAt[v]
    requires after.lostAt == bk.lostAt && after.overwritten == bk.overwritten
    ensures TreesRight(block, forms, after, k)
  {
    forall v | v in after.pending
      ensures after.madeAt[v] < k && after.pending[v].expression == Rebuild(block, forms, after.fed, after.madeAt[v])
    {
      assert after.pending[v] == bk.pending[v];
      RebuildStable(block, forms, bk.fed, after.fed, bk.madeAt[v], k);
    }
    forall i | 0 <= i < |after.lostAt|
      ensures after.lostAt[i] < k && after.overwritten[i].1 == Rebuild(block, forms, after.fed, after.lostAt[i])
    {
      assert bk.lostAt[i] < k;
      RebuildStable(block, forms, bk.fed, after.fed, bk.lostAt[i], k);
    }
  }

  /** One operand keeps the books, and becomes the tree it absorbed or a leaf. */
  lemma OperandKeeps(block: BlockId, forms: seq<Form>, uses: map<Var, nat>, bk: Books, k: nat, m: nat, recorded: set<Def>)
    requires k < |forms| && forms[k].OpForm? && m < |forms[k].operands| && Kept(block, forms, uses, bk, k, m, recorded)
    ensures var v := forms[k].operands[m];
            var (after, e, _) := Operand(bk, k, m, v, SingleUse(uses, v));
            && Kept(block, forms, uses, after, k, m + 1, recorded) && SameBelow(bk.fed, after.fed, k)
            && e == OperandTree(block, forms, after.fed, k, m, v)
            && forall i :: i != m ==> ((k, i) in bk.fed <==> (k, i) in after.fed) && ((k, i) in bk.fed ==> bk.fed[(k, i)] == after.fed[(k, i)])
  {
    var v := forms[k].operands[m];
    if Absorbable(bk, v, SingleUse(uses, v)) {
      AbsorbKeeps(block, forms, uses, bk, k, m, v, recorded);
    } else {
      assert (k, m) !in bk.fed;
    }
  }

  /** What the first `m` operands have become, and the books they leave. */
  ghost predicate OperandsKept(block: BlockId, forms: seq<Form>, uses: map<Var, nat>, bk: Books, after: Books, es: seq<Expr>,
                               k: nat, m: nat, recorded: set<Def>)
    requires k < |forms| && forms[k].OpForm? && m <= |forms[k].operands|
  {
    && |es| == m && Kept(block, forms, uses, after, k, m, recorded) && SameBelow(bk.fed, after.fed, k)
    && forall i {:trigger es[i]} :: 0 <= i < m ==> es[i] == OperandTree(block, forms, after.fed, k, i, forms[k].operands[i])
  }

  lemma NextOperandKept(block: BlockId, forms: seq<Form>, uses: map<Var, nat>, bk: Books, before: Books, es: seq<Expr>,
                        k: nat, m: nat, recorded: set<Def>)
    requires k < |forms| && forms[k].OpForm? && m < |forms[k].operands|
    requires OperandsKept(block, forms, uses, bk, before, es, k, m, recorded)
    ensures var v := forms[k].operands[m];
            var (after, e, _) := Operand(before, k, m, v, SingleUse(uses, v));
            OperandsKept(block, forms, uses, bk, after, es + [e], k, m + 1, recorded)
  {
    var v := forms[k].operands[m];
    var (after, e, _) := Operand(before, k, m, v, SingleUse(uses, v));
    OperandKeeps(block, forms, uses, before, k, m, recorded);
    EarlierOperands(block, forms, bk, before, after, es, k, m);
    forall i | 0 <= i < m + 1
      ensures (es + [e])[i] == OperandTree(block, forms, after.fed, k, i, forms[k].operands[i])
    {
      if i < m {
        assert (es + [e])[i] == es[i];
      }
    }
  }

  lemma {:induction false} OperandsKeep(block: BlockId, forms: seq<Form>, uses: map<Var, nat>, bk: Books, k: nat, m: nat, recorded: set<Def>)
    requires k < |forms| && forms[k].OpForm? && m <= |forms[k].operands| && Kept(block, forms, uses, bk, k, 0, recorded)
    ensures var (after, es, _) := Operands(bk, k, forms[k].operands, uses, m);
            OperandsKept(block, forms, uses, bk, after, es, k, m, recorded)
  {
    if m > 0 {
      OperandsKeep(block, forms, uses, bk, k, m - 1, recorded);
      var (before, es, _) := Operands(bk, k, forms[k].operands, uses, m - 1);
      NextOperandKept(block, forms, uses, bk, before, es, k, m - 1, recorded);
    }
  }

  lemma EarlierOperands(block: BlockId, forms: seq<Form>, bk: Books, before: Books, after: Books, es: seq<Expr>, k: nat, m: nat)
    requires k < |forms| && forms[k].OpForm? && m <= |forms[k].operands| && |es| == m
    requires SameBelow(bk.fed, before.fed, k) && SameBelow(before.fed, after.fed, k)
    requires forall p :: p in before.fed && p.0 == k ==> before.fed[p].at < k
    requires forall i :: 0 <= i < m ==> ((k, i) in before.fed <==> (k, i) in after.fed) && ((k, i) in before.fed ==> before.fed[(k, i)] == after.fed[(k, i)])
    requires forall i {:trigger es[i]} :: 0 <= i < m ==> es[i] == OperandTree(block, forms, before.fed, k, i, forms[k].operands[i])
    ensures SameBelow(bk.fed, after.fed, k)
    ensures forall i {:trigger es[i]} :: 0 <= i < m ==> es[i] == OperandTree(block, forms, after.fed, k, i, forms[k].operands[i])
  {
    forall i | 0 <= i < m ensures es[i] == OperandTree(block, forms, after.fed, k, i, forms[k].operands[i]) {
      if (k, i) in before.fed {
        RebuildStable(block, forms, before.fed, after.fed, before.fed[(k, i)].at, k);
      }
    }
  }

  /** The tree an instruction makes is the one its operands rebuild. */
  lemma DefineKeeps(block: BlockId, insts: seq<Inst>, forms: seq<Form>, uses: map<Var, nat>, bk: Books, k: nat, recorded: set<Def>)
    requires k < |forms| == |insts| && Kept(block, forms, uses, bk, k, 0, recorded)
    ensures var (taken, made) := Define(bk, block, k, insts[k], forms[k], uses);
            && Accounted(taken, recorded) && InOrder(taken) && FedRight(forms, uses, taken, k + 1, 0)
            && TreesRight(block, forms, taken, k) && made.expression == Rebuild(block, forms, taken.fed, k)
  {
    if forms[k].OpForm? {
      var vs := forms[k].operands;
      OperandsKeep(block, forms, uses, bk, k, |vs|, recorded);
      var (taken, es, _) := Operands(bk, k, vs, uses, |vs|);
      RebuildsTo(block, forms, uses, taken, es, k);
      FedNext(forms, uses, taken, k, |vs|);
    } else {
      FedNext(forms, uses, bk, k, 0);
    }
  }

  lemma FedNext(forms: seq<Form>, uses: map<Var, nat>, bk: Books, k: nat, m: nat)
    requires FedRight(forms, uses, bk, k, m)
    ensures FedRight(forms, uses, bk, k + 1, 0)
  {
  }

  lemma RebuildsTo(block: BlockId, forms: seq<Form>, uses: map<Var, nat>, taken: Books, es: seq<Expr>, k: nat)
    requires k < |forms| && forms[k].OpForm? && |es| == |forms[k].operands| && FedRight(forms, uses, taken, k, |es|)
    requires forall i {:trigger es[i]} :: 0 <= i < |es| ==> es[i] == OperandTree(block, forms, taken.fed, k, i, forms[k].operands[i])
    ensures Op(forms[k].operator, es) == Rebuild(block, forms, taken.fed, k)
  {
    var vs := forms[k].operands;
    forall m | 0 <= m < |vs|
      ensures es[m] == if (k, m) in taken.fed && taken.fed[(k, m)].at < k then Rebuild(block, forms, taken.fed, taken.fed[(k, m)].at)
                       else Leaf(vs[m])
    {
      assert es[m] == OperandTree(block, forms, taken.fed, k, m, vs[m]);
    }
    assert Rebuild(block, forms, taken.fed, k).operands == es;
  }

  lemma {:induction false} RedefineTrees(block: BlockId, forms: seq<Form>, bk: Books, defs: seq<Var>, k: nat)
    requires TreesRight(block, forms, bk, k)
    ensures TreesRight(block, forms, RedefineAll(bk, defs), k) && RedefineAll(bk, defs).fed == bk.fed
  {
    if defs != [] {
      RedefineTrees(block, forms, bk, defs[..|defs| - 1], k);
      RedefineTree(block, forms, RedefineAll(bk, defs[..|defs| - 1]), defs[|defs| - 1], k);
    }
  }

  lemma RedefineTree(block: BlockId, forms: seq<Form>, bk: Books, d: Var, k: nat)
    requires TreesRight(block, forms, bk, k)
    ensures TreesRight(block, forms, Redefine(bk, d), k) && Redefine(bk, d).fed == bk.fed
  {
    var after := Redefine(bk, d);
    forall v | v in after.pending
      ensures after.madeAt[v] < k && after.pending[v].expression == Rebuild(block, forms, after.fed, after.madeAt[v])
    {
      assert after.pending[v] == bk.pending[v];
    }
    forall i | 0 <= i < |after.lostAt|
      ensures after.lostAt[i] < k && after.overwritten[i].1 == Rebuild(block, forms, after.fed, after.lostAt[i])
    {
      if i < |bk.lostAt| {
        assert after.lostAt[i] == bk.lostAt[i];
      } else {
        assert bk.pending[d].expression == Rebuild(block, forms, bk.fed, bk.madeAt[d]);
      }
    }
  }

  lemma {:induction false} RecordTrees(block: BlockId, forms: seq<Form>, bk: Books, defs: seq<Var>, p: Pending, k: nat)
    requires k < |forms| && TreesRight(block, forms, bk, k) && p.expression == Rebuild(block, forms, bk.fed, k)
    ensures TreesRight(block, forms, RecordAll(bk, k, defs, p), k + 1) && RecordAll(bk, k, defs, p).fed == bk.fed
  {
    var after := RecordAll(bk, k, defs, p);
    if defs != [] {
      RecordTrees(block, forms, bk, defs[..|defs| - 1], p, k);
      var before := RecordAll(bk, k, defs[..|defs| - 1], p);
      forall v | v in after.pending
        ensures after.madeAt[v] < k + 1 && after.pending[v].expression == Rebuild(block, forms, after.fed, after.madeAt[v])
      {
        if v != defs[|defs| - 1] {
          assert after.pending[v] == before.pending[v];
        }
      }
      forall i | 0 <= i < |after.lostAt|
        ensures after.lostAt[i] < k + 1 && after.overwritten[i].1 == Rebuild(block, forms, after.fed, after.lostAt[i])
      {
        assert after.lostAt[i] == before.lostAt[i];
      }
    }
  }

  /** One instruction keeps the books. */
  lemma WalkKeeps(block: BlockId, insts: seq<Inst>, forms: seq<Form>, uses: map<Var, nat>, bk: Books, k: nat)
    requires k < |forms| == |insts| && Kept(block, forms, uses, bk, k, 0, RecordedBy(insts, forms, k))
    ensures Kept(block, forms, uses, Walk(bk, block, k, insts[k], forms[k], uses), k + 1, 0, RecordedBy(insts, forms, k + 1))
  {
    var inst, form, recorded := insts[k], forms[k], RecordedBy(insts, forms, k);
    var (taken, made) := Define(bk, block, k, inst, form, uses);
    DefineKeeps(block, insts, forms, uses, bk, k, recorded);
    RedefineAllAccounts(taken, inst.defs, recorded);
    RedefineTrees(block, forms, taken, inst.defs, k);
    var dropped := RedefineAll(taken, inst.defs);
    RecordAllAccounts(dropped, k, RecordedDefs(inst, form), made, recorded);
    RecordTrees(block, forms, dropped, RecordedDefs(inst, form), made, k);
  }

  ghost predicate KeptBefore(block: BlockId, insts: seq<Inst>, forms: seq<Form>, uses: map<Var, nat>, k: nat) {
    && k <= |insts| == |forms|
    && Kept(block, forms, uses, BooksAt(block, insts, forms, uses, k), k, 0, RecordedBy(insts, forms, k))
  }

  lemma KeptAtStart(block: BlockId, insts: seq<Inst>, forms: seq<Form>, uses: map<Var, nat>)
    requires |insts| == |forms|
    ensures KeptBefore(block, insts, forms, uses, 0)
  {
  }

  lemma KeptNext(block: BlockId, insts: seq<Inst>, forms: seq<Form>, uses: map<Var, nat>, k: nat)
    requires k < |insts| && KeptBefore(block, insts, forms, uses, k)
    ensures KeptBefore(block, insts, forms, uses, k + 1)
  {
    WalkKeeps(block, insts, forms, uses, BooksAt(block, insts, forms, uses, k), k);
  }

  /** Every definition a block records ends as one root or is absorbed by exactly one operand of one later instruction,
      which may itself record no tree, and each tree is the one those absorptions rebuild. */
  lemma {:induction false} BooksKept(block: BlockId, insts: seq<Inst>, forms: seq<Form>, uses: map<Var, nat>, k: nat)
    requires k <= |insts| == |forms|
    ensures KeptBefore(block, insts, forms, uses, k)
  {
    hide KeptBefore;
    if k == 0 {
      KeptAtStart(block, insts, forms, uses);
    } else {
      BooksKept(block, insts, forms, uses, k - 1);
      KeptNext(block, insts, forms, uses, k - 1);
    }
  }
}

/** The recovery of one block, step by step. */
module ExpressionRecovery {
  import opened Wrappers
  import opened Program
  import opened Expressions
  import opened ExpressionMeaning
  import opened ExpressionAccounting

  /** Everything the block reads, operand or not. */
  function AllUses(insts: seq<Inst>): multiset<Var> {
    if insts == [] then multiset{} else AllUses(insts[..|insts| - 1]) + multiset(insts[|insts| - 1].uses)
  }

  ghost predicate CountsRight(uses: map<Var, nat>, read: multiset<Var>) {
    forall v {:trigger Times(uses, v)} {:trigger read[v]} :: Times(uses, v) == read[v]
  }

  lemma CountOne(uses: map<Var, nat>, read: multiset<Var>, v: Var)
    requires CountsRight(uses, read)
    ensures CountsRight(uses[v := Times(uses, v) + 1], read + multiset{v})
  {
    forall w ensures Times(uses[v := Times(uses, v) + 1], w) == (read + multiset{v})[w] {
      assert Times(uses, w) == read[w];
    }
  }

  method CountUses(insts: seq<Inst>) returns (uses: map<Var, nat>)
    ensures CountsRight(uses, AllUses(insts))
  {
    uses := map[];
    for k := 0 to |insts|
      invariant CountsRight(uses, AllUses(insts[..k]))
    {
      var vs := insts[k].uses;
      ghost var before := AllUses(insts[..k]);
      for i := 0 to |vs|
        invariant CountsRight(uses, before + multiset(vs[..i]))
      {
        TakeNext(vs, i);
        CountOne(uses, before + multiset(vs[..i]), vs[i]);
        assert before + multiset(vs[..i + 1]) == before + multiset(vs[..i]) + multiset{vs[i]};
        uses := uses[vs[i] := Times(uses, vs[i]) + 1];
      }
      TakeAll(vs);
      assert insts[..k + 1][..k] == insts[..k];
    }
    TakeAll(insts);
  }

  class Recovery {
    var pending: map<Var, Pending>
    var overwritten: seq<(Var, Expr)>
    var count: map<Var, nat>
    ghost var madeAt: map<Var, nat>
    ghost var lostAt: seq<nat>
    ghost var fed: map<(nat, nat), Def>

    ghost function View(): Books
      reads this
    {
      Books(pending, overwritten, count, madeAt, lostAt, fed)
    }

    ghost predicate Valid()
      reads this
    {
      madeAt.Keys == pending.Keys
    }

    constructor ()
      ensures Valid() && View() == Books(map[], [], map[], map[], [], map[])
    {
      pending, overwritten, count := map[], [], map[];
      madeAt, lostAt, fed := map[], [], map[];
    }

    function TimesDefined(v: Var): nat
      reads this
    {
      if v in count then count[v] else 0
    }

    /** The operand for a read of `v`: the pending definition when this is the variable's only read and nothing that
        definition read has been redefined since, else a leaf. */
    method TakeOperand(v: Var, single: bool, ghost k: nat, ghost m: nat) returns (e: Expr, seen: Reads)
      requires Valid()
      modifies this
      ensures Valid() && (View(), e, seen) == Operand(old(View()), k, m, v, single)
    {
      var absorbable := single && v in pending;
      if absorbable {
        var old' := pending[v].seen;
        absorbable := forall i :: 0 <= i < |old'| ==> TimesDefined(old'[i].0) == old'[i].1;
      }
      if absorbable {
        e, seen := pending[v].expression, pending[v].seen;
        pending := pending - {v};
        fed := fed[(k, m) := Def(madeAt[v], v)];
        madeAt := madeAt - {v};
      } else {
        e, seen := Leaf(v), [(v, TimesDefined(v))];
      }
    }

    method TakeOperands(vs: seq<Var>, uses: map<Var, nat>, ghost k: nat) returns (operands: seq<Expr>, seen: Reads)
      requires Valid()
      modifies this
      ensures Valid() && (View(), operands, seen) == Operands(old(View()), k, vs, uses, |vs|)
    {
      operands, seen := [], [];
      for m := 0 to |vs|
        invariant Valid() && (View(), operands, seen) == Operands(old(View()), k, vs, uses, m)
      {
        var e, more := TakeOperand(vs[m], SingleUse(uses, vs[m]), k, m);
        operands, seen := operands + [e], seen + more;
      }
    }

    method ReadsFor(vs: seq<Var>) returns (seen: Reads)
      ensures seen == ReadsOf(View(), vs)
    {
      seen := [];
      for i := 0 to |vs|
        invariant |seen| == i && forall j :: 0 <= j < i ==> seen[j] == (vs[j], Generation(View(), vs[j]))
      {
        seen := seen + [(vs[i], TimesDefined(vs[i]))];
      }
    }

    /** One instruction defined every variable of `defs`: what each held before can no longer be absorbed. */
    method RedefineVariables(defs: seq<Var>)
      requires Valid()
      modifies this
      ensures Valid() && View() == RedefineAll(old(View()), defs)
    {
      for i := 0 to |defs|
        invariant Valid() && View() == RedefineAll(old(View()), defs[..i])
      {
        var d := defs[i];
        assert defs[..i + 1][..i] == defs[..i];
        if d in pending {
          overwritten, lostAt := overwritten + [(d, pending[d].expression)], lostAt + [madeAt[d]];
          pending, madeAt := pending - {d}, madeAt - {d};
        }
        count := count[d := TimesDefined(d) + 1];
      }
      TakeAll(defs);
    }

    method RecordDefinitions(defs: seq<Var>, p: Pending, ghost k: nat)
      requires Valid()
      modifies this
      ensures Valid() && View() == RecordAll(old(View()), k, defs, p)
    {
      for i := 0 to |defs|
        invariant Valid() && View() == RecordAll(old(View()), k, defs[..i], p)
      {
        assert defs[..i + 1][..i] == defs[..i];
        pending, madeAt := pending[defs[i] := p], madeAt[defs[i] := k];
      }
      TakeAll(defs);
    }

    /** The definition instruction `k` makes. */
    method MakeDefinition(block: BlockId, k: nat, inst: Inst, form: Form, uses: map<Var, nat>) returns (made: Pending)
      requires Valid()
      modifies this
      ensures Valid() && (View(), made) == Define(old(View()), block, k, inst, form, uses)
    {
      match form
      case ConstForm(c) =>
        made := Pending(Constant(c), []);
      case OpForm(op, vs) =>
        var operands, seen := TakeOperands(vs, uses, k);
        made := Pending(Op(op, operands), seen);
      case NoForm =>
        var seen := ReadsFor(inst.uses);
        made := Pending(Sealed(block, k), seen);
    }

    method WalkInstruction(block: BlockId, k: nat, inst: Inst, form: Form, uses: map<Var, nat>)
      requires Valid()
      modifies this
      ensures Valid() && View() == Walk(old(View()), block, k, inst, form, uses)
    {
      var made := MakeDefinition(block, k, inst, form, uses);
      RedefineVariables(inst.defs);
      RecordDefinitions(RecordedDefs(inst, form), made, k);
    }
  }

  /** A list of roots with the instruction that made each, as a set. */
  ghost function Made(roots: seq<(Var, Expr)>, ats: seq<nat>): set<(Def, Expr)>
    requires |roots| == |ats|
  {
    set i | 0 <= i < |roots| :: (Def(ats[i], roots[i].0), roots[i].1)
  }

  /** By variable and, for one variable, by definition. */
  ghost predicate Ordered(roots: seq<(Var, Expr)>, ats: seq<nat>) {
    && |roots| == |ats|
    && forall i, j :: 0 <= i < j < |roots| ==> roots[i].0 < roots[j].0 || (roots[i].0 == roots[j].0 && ats[i] < ats[j])
  }

  /** The definitions of each variable come in the order they were made. */
  ghost predicate Chronological(roots: seq<(Var, Expr)>, ats: seq<nat>) {
    |roots| == |ats| && forall i, j :: 0 <= i < j < |roots| && roots[i].0 == roots[j].0 ==> ats[i] < ats[j]
  }

  /** Where a new item goes: behind everything not greater. */
  method Place(sorted: seq<(Var, Expr)>, v: Var, ghost ats: seq<nat>) returns (i: nat)
    requires Ordered(sorted, ats)
    ensures i <= |sorted| && (forall j :: 0 <= j < i ==> sorted[j].0 <= v) && forall j :: i <= j < |sorted| ==> v < sorted[j].0
  {
    i := |sorted|;
    while i > 0 && v < sorted[i - 1].0
      invariant i <= |sorted| && forall j :: i <= j < |sorted| ==> v < sorted[j].0
    {
      i := i - 1;
    }
  }

  function Insert<T>(s: seq<T>, i: nat, x: T): (r: seq<T>)
    requires i <= |s|
    ensures |r| == |s| + 1 && r[i] == x
    ensures forall j :: 0 <= j < i ==> r[j] == s[j]
    ensures forall j :: i < j <= |s| ==> r[j] == s[j - 1]
  {
    s[..i] + [x] + s[i..]
  }

  lemma PlacedOrdered(sorted: seq<(Var, Expr)>, ats: seq<nat>, item: (Var, Expr), at: nat, i: nat)
    requires Ordered(sorted, ats) && i <= |sorted|
    requires (forall j :: 0 <= j < i ==> sorted[j].0 <= item.0) && forall j :: i <= j < |sorted| ==> item.0 < sorted[j].0
    requires forall j :: 0 <= j < |sorted| && sorted[j].0 == item.0 ==> ats[j] < at
    ensures Ordered(Insert(sorted, i, item), Insert(ats, i, at))
  {
  }

  lemma PlacedMade(sorted: seq<(Var, Expr)>, ats: seq<nat>, item: (Var, Expr), at: nat, i: nat)
    requires |sorted| == |ats| && i <= |sorted|
    ensures Made(Insert(sorted, i, item), Insert(ats, i, at)) == Made(sorted, ats) + {(Def(at, item.0), item.1)}
  {
    var more, mats := Insert(sorted, i, item), Insert(ats, i, at);
    forall x | x in Made(sorted, ats) ensures x in Made(more, mats) {
      var j :| 0 <= j < |sorted| && x == (Def(ats[j], sorted[j].0), sorted[j].1);
      var j' := if j < i then j else j + 1;
      assert more[j'] == sorted[j] && mats[j'] == ats[j];
    }
    assert more[i] == item && mats[i] == at;
  }

  /** A stable sort by variable. */
  method SortRoots(items: seq<(Var, Expr)>, ghost ats: seq<nat>) returns (sorted: seq<(Var, Expr)>, ghost sats: seq<nat>)
    requires Chronological(items, ats)
    ensures Ordered(sorted, sats) && |sorted| == |items| && Made(sorted, sats) == Made(items, ats)
  {
    sorted, sats := [], [];
    for k := 0 to |items|
      invariant |sorted| == k && Ordered(sorted, sats) && Made(sorted, sats) == Made(items[..k], ats[..k])
    {
      var i := Place(sorted, items[k].0, sats);
      forall j | 0 <= j < |sorted| && sorted[j].0 == items[k].0 ensures sats[j] < ats[k] {
        assert (Def(sats[j], sorted[j].0), sorted[j].1) in Made(sorted, sats);
        var l :| 0 <= l < k && items[..k][l].0 == sorted[j].0 && ats[..k][l] == sats[j];
      }
      PlacedOrdered(sorted, sats, items[k], ats[k], i);
      PlacedMade(sorted, sats, items[k], ats[k], i);
      MadeNext(items, ats, k);
      sorted, sats := Insert(sorted, i, items[k]), Insert(sats, i, ats[k]);
    }
    TakeAll(items);
    TakeAll(ats);
  }

  lemma MadeNext(items: seq<(Var, Expr)>, ats: seq<nat>, k: nat)
    requires k < |items| == |ats|
    ensures Made(items[..k + 1], ats[..k + 1]) == Made(items[..k], ats[..k]) + {(Def(ats[k], items[k].0), items[k].1)}
  {
    var (a, b) := (Made(items[..k + 1], ats[..k + 1]), Made(items[..k], ats[..k]) + {(Def(ats[k], items[k].0), items[k].1)});
    forall x | x in b ensures x in a {
      if x in Made(items[..k], ats[..k]) {
        var i :| 0 <= i < k && x == (Def(ats[..k][i], items[..k][i].0), items[..k][i].1);
        assert items[..k + 1][i] == items[i] && ats[..k + 1][i] == ats[i];
      } else {
        assert items[..k + 1][k] == items[k] && ats[..k + 1][k] == ats[k];
      }
    }
  }

  /** What is still pending, in some order; the sort that follows settles which. */
  method ListPending(recovery: Recovery) returns (items: seq<(Var, Expr)>, ghost ats: seq<nat>)
    requires recovery.Valid()
    ensures |items| == |ats| && forall i, j :: 0 <= i < j < |items| ==> items[i].0 != items[j].0
    ensures forall i :: 0 <= i < |items| ==> PendingAs(recovery.View(), items[i].0, items[i].1, ats[i])
    ensures forall v :: v in recovery.pending ==> exists i :: 0 <= i < |items| && items[i].0 == v
  {
    items, ats := [], [];
    var rest := recovery.pending.Keys;
    while rest != {}
      invariant rest <= recovery.pending.Keys && |items| == |ats|
      invariant forall i, j :: 0 <= i < j < |items| ==> items[i].0 != items[j].0
      invariant forall i :: 0 <= i < |items| ==> items[i].0 !in rest && PendingAs(recovery.View(), items[i].0, items[i].1, ats[i])
      invariant forall v :: v in recovery.pending ==> v in rest || exists i :: 0 <= i < |items| && items[i].0 == v
      decreases rest
    {
      HasMember(rest);
      var v :| v in rest;
      rest := rest - {v};
      ghost var before := items;
      items, ats := items + [(v, recovery.pending[v].expression)], ats + [recovery.madeAt[v]];
      assert items[|before|].0 == v;
      forall u | u in recovery.pending && u !in rest ensures exists i :: 0 <= i < |items| && items[i].0 == u {
        if u != v {
          var i :| 0 <= i < |before| && before[i].0 == u;
          assert items[i].0 == u;
        }
      }
    }
  }

  ghost predicate PendingAs(bk: Books, v: Var, e: Expr, at: nat) {
    v in bk.pending && v in bk.madeAt && bk.pending[v].expression == e && bk.madeAt[v] == at
  }

  /** The trees nothing absorbed, each with the instruction that made it. */
  ghost function Roots(bk: Books): set<(Def, Expr)>
    requires bk.madeAt.Keys == bk.pending.Keys && |bk.lostAt| == |bk.overwritten|
  {
    (set v | v in bk.pending :: (Def(bk.madeAt[v], v), bk.pending[v].expression)) + Made(bk.overwritten, bk.lostAt)
  }

  /** The overwritten roots with the pending ones behind them. */
  lemma Joined(bk: Books, items: seq<(Var, Expr)>, ats: seq<nat>)
    requires bk.madeAt.Keys == bk.pending.Keys && InOrder(bk) && |items| == |ats|
    requires forall i, j :: 0 <= i < j < |items| ==> items[i].0 != items[j].0
    requires forall i :: 0 <= i < |items| ==> PendingAs(bk, items[i].0, items[i].1, ats[i])
    requires forall v :: v in bk.pending ==> exists i :: 0 <= i < |items| && items[i].0 == v
    ensures Chronological(bk.overwritten + items, bk.lostAt + ats)
    ensures Made(bk.overwritten + items, bk.lostAt + ats) == Roots(bk)
  {
    var all, ways := bk.overwritten + items, bk.lostAt + ats;
    JoinedOrder(bk, items, ats);
    forall x | x in Made(all, ways) ensures x in Roots(bk) {
      var i :| 0 <= i < |all| && x == (Def(ways[i], all[i].0), all[i].1);
      if i < |bk.overwritten| {
        assert all[i] == bk.overwritten[i] && ways[i] == bk.lostAt[i];
      } else {
        assert PendingAs(bk, items[i - |bk.overwritten|].0, items[i - |bk.overwritten|].1, ats[i - |bk.overwritten|]);
      }
    }
    forall x | x in Roots(bk) ensures x in Made(all, ways) {
      if x in Made(bk.overwritten, bk.lostAt) {
        var i :| 0 <= i < |bk.overwritten| && x == (Def(bk.lostAt[i], bk.overwritten[i].0), bk.overwritten[i].1);
        assert all[i] == bk.overwritten[i] && ways[i] == bk.lostAt[i];
      } else {
        var i :| 0 <= i < |items| && items[i].0 == x.0.v;
        assert PendingAs(bk, items[i].0, items[i].1, ats[i]);
        assert all[|bk.overwritten| + i] == items[i] && ways[|bk.overwritten| + i] == ats[i];
      }
    }
  }

  lemma JoinedOrder(bk: Books, items: seq<(Var, Expr)>, ats: seq<nat>)
    requires InOrder(bk) && |items| == |ats|
    requires forall i, j :: 0 <= i < j < |items| ==> items[i].0 != items[j].0
    requires forall i :: 0 <= i < |items| ==> PendingAs(bk, items[i].0, items[i].1, ats[i])
    ensures Chronological(bk.overwritten + items, bk.lostAt + ats)
  {
    var all, ways := bk.overwritten + items, bk.lostAt + ats;
    forall i, j | 0 <= i < j < |all| && all[i].0 == all[j].0 ensures ways[i] < ways[j] {
      if j >= |bk.overwritten| {
        assert PendingAs(bk, items[j - |bk.overwritten|].0, items[j - |bk.overwritten|].1, ats[j - |bk.overwritten|]);
      }
    }
  }

  /** What the recovery of a block returns: every tree nothing absorbed, ordered by variable and, for one variable, by
      definition. */
  ghost predicate IsRecovery(block: BlockId, insts: seq<Inst>, forms: seq<Form>, uses: map<Var, nat>,
                             roots: seq<(Var, Expr)>, ats: seq<nat>) {
    && |insts| == |forms| && CountsRight(uses, AllUses(insts)) && Ordered(roots, ats)
    && var bk := BooksAt(block, insts, forms, uses, |insts|);
       |bk.lostAt| == |bk.overwritten| && Made(roots, ats) == Roots(bk)
  }

  method Recover(block: BlockId, insts: seq<Inst>, forms: seq<Form>)
    returns (roots: seq<(Var, Expr)>, ghost ats: seq<nat>, ghost uses: map<Var, nat>)
    requires Formed(insts, forms)
    ensures IsRecovery(block, insts, forms, uses, roots, ats)
  {
    hide InOrder, Made, Roots, Ordered, Walk;
    var counts := CountUses(insts);
    var recovery := new Recovery();
    for k := 0 to |insts|
      invariant recovery.Valid() && recovery.View() == BooksAt(block, insts, forms, counts, k)
    {
      recovery.WalkInstruction(block, k, insts[k], forms[k], counts);
    }
    BooksReady(block, insts, forms, counts);
    roots, ats := IntoRoots(recovery);
    uses := counts;
  }

  lemma BooksReady(block: BlockId, insts: seq<Inst>, forms: seq<Form>, uses: map<Var, nat>)
    requires |insts| == |forms|
    ensures var bk := BooksAt(block, insts, forms, uses, |insts|);
            bk.madeAt.Keys == bk.pending.Keys && InOrder(bk) && |bk.lostAt| == |bk.overwritten|
  {
    hide BooksAt;
    BooksKept(block, insts, forms, uses, |insts|);
  }

  /** What was overwritten and what is still pending, in the order of the instructions that made it. */
  method IntoRoots(recovery: Recovery) returns (roots: seq<(Var, Expr)>, ghost ats: seq<nat>)
    requires recovery.Valid() && recovery.madeAt.Keys == recovery.pending.Keys && InOrder(recovery.View())
    ensures Ordered(roots, ats) && Made(roots, ats) == Roots(recovery.View())
  {
    hide InOrder, Ordered, Made, Roots, Chronological;
    var items;
    ghost var made;
    items, made := ListPending(recovery);
    Joined(recovery.View(), items, made);
    roots, ats := SortRoots(recovery.overwritten + items, recovery.lostAt + made);
  }

  /** Recovered trees mean what the block computes: each root, evaluated in the state just before the instruction that
      made it, gives the value that instruction writes to the root's variable. */
  lemma RootsMean(ex: Execution, roots: seq<(Var, Expr)>, ats: seq<nat>)
    requires ex.Ok() && IsRecovery(ex.block, ex.insts, ex.forms, ex.uses, roots, ats)
    ensures forall i :: 0 <= i < |roots| ==> ex.Means(roots[i].1, ats[i], roots[i].0)
  {
    var bk := BooksAt(ex.block, ex.insts, ex.forms, ex.uses, |ex.insts|);
    BooksAlwaysMean(ex, |ex.insts|);
    forall i | 0 <= i < |roots| ensures ex.Means(roots[i].1, ats[i], roots[i].0) {
      var x := (Def(ats[i], roots[i].0), roots[i].1);
      assert x in Made(roots, ats);
      if x in Made(bk.overwritten, bk.lostAt) {
        var j :| 0 <= j < |bk.overwritten| && x == (Def(bk.lostAt[j], bk.overwritten[j].0), bk.overwritten[j].1);
        assert ex.Means(bk.overwritten[j].1, bk.lostAt[j], bk.overwritten[j].0);
      } else {
        var v :| v in bk.pending && x == (Def(bk.madeAt[v], v), bk.pending[v].expression);
        assert PromiseOf(ex, bk.count, bk.pending[v], bk.madeAt[v], |ex.insts|, v);
      }
    }
  }

  /** Conservation: with `fed` saying which definition each operand absorbed, every definition the block records is
      either one root or absorbed by exactly one operand of one later instruction, which names its variable and is the
      block's only read of it. No root and no operand holds anything else, and every root's tree is the one these
      absorptions rebuild. */
  lemma RootsConserve(block: BlockId, insts: seq<Inst>, forms: seq<Form>, uses: map<Var, nat>, roots: seq<(Var, Expr)>, ats: seq<nat>)
    returns (fed: map<(nat, nat), Def>)
    requires IsRecovery(block, insts, forms, uses, roots, ats)
    ensures forall i :: 0 <= i < |roots| ==>
              && Def(ats[i], roots[i].0) in RecordedBy(insts, forms, |insts|) && ats[i] < |forms|
              && roots[i].1 == Rebuild(block, forms, fed, ats[i]) && Def(ats[i], roots[i].0) !in fed.Values
    ensures forall d :: d in RecordedBy(insts, forms, |insts|) ==>
              d in fed.Values || exists i :: 0 <= i < |roots| && d == Def(ats[i], roots[i].0)
    ensures forall p: (nat, nat), q: (nat, nat) :: p in fed && q in fed && p != q ==> fed[p] != fed[q]
    ensures forall p: (nat, nat) :: p in fed ==>
              && fed[p] in RecordedBy(insts, forms, |insts|) && fed[p].at < p.0 < |forms|
              && forms[p.0].OpForm? && p.1 < |forms[p.0].operands| && forms[p.0].operands[p.1] == fed[p].v
              && AllUses(insts)[fed[p].v] == 1
  {
    var bk := BooksAt(block, insts, forms, uses, |insts|);
    BooksKept(block, insts, forms, uses, |insts|);
    fed := bk.fed;
    FedConserves(block, insts, forms, uses, bk);
    forall i | 0 <= i < |roots|
      ensures Def(ats[i], roots[i].0) in Held(bk) + Lost(bk) && ats[i] < |forms|
      ensures roots[i].1 == Rebuild(block, forms, fed, ats[i])
    {
      assert (Def(ats[i], roots[i].0), roots[i].1) in Made(roots, ats);
      RootKept(block, forms, bk, |insts|, Def(ats[i], roots[i].0), roots[i].1);
    }
    forall d | d in Held(bk) + Lost(bk) ensures exists i :: 0 <= i < |roots| && d == Def(ats[i], roots[i].0) {
      var e := KeptRoot(bk, d);
      assert (d, e) in Made(roots, ats);
    }
  }

  lemma FedConserves(block: BlockId, insts: seq<Inst>, forms: seq<Form>, uses: map<Var, nat>, bk: Books)
    requires |insts| == |forms| && CountsRight(uses, AllUses(insts))
    requires Kept(block, forms, uses, bk, |insts|, 0, RecordedBy(insts, forms, |insts|))
    ensures Fed(bk) == bk.fed.Values
    ensures forall p: (nat, nat) :: p in bk.fed ==>
              && bk.fed[p] in RecordedBy(insts, forms, |insts|) && bk.fed[p].at < p.0 < |forms|
              && forms[p.0].OpForm? && p.1 < |forms[p.0].operands| && forms[p.0].operands[p.1] == bk.fed[p].v
              && AllUses(insts)[bk.fed[p].v] == 1
  {
    forall p: (nat, nat) | p in bk.fed ensures bk.fed[p] in Fed(bk) && AllUses(insts)[bk.fed[p].v] == 1 {
      assert Times(uses, bk.fed[p].v) == AllUses(insts)[bk.fed[p].v];
    }
  }

  lemma RootKept(block: BlockId, forms: seq<Form>, bk: Books, k: nat, d: Def, e: Expr)
    requires TreesRight(block, forms, bk, k) && (d, e) in Roots(bk)
    ensures d in Held(bk) + Lost(bk) && d.at < k && e == Rebuild(block, forms, bk.fed, d.at)
  {
    if (d, e) in Made(bk.overwritten, bk.lostAt) {
      var j :| 0 <= j < |bk.overwritten| && (d, e) == (Def(bk.lostAt[j], bk.overwritten[j].0), bk.overwritten[j].1);
      assert bk.lostAt[j] < k;
    } else {
      var v :| v in bk.pending && (d, e) == (Def(bk.madeAt[v], v), bk.pending[v].expression);
    }
  }

  lemma KeptRoot(bk: Books, d: Def) returns (e: Expr)
    requires bk.madeAt.Keys == bk.pending.Keys && |bk.lostAt| == |bk.overwritten| && d in Held(bk) + Lost(bk)
    ensures (d, e) in Roots(bk)
  {
    if d in Held(bk) {
      var v :| v in bk.madeAt && d == Def(bk.madeAt[v], v);
      e := bk.pending[v].expression;
    } else {
      var i :| 0 <= i < |bk.lostAt| && d == Def(bk.lostAt[i], bk.overwritten[i].0);
      e := bk.overwritten[i].1;
    }
  }

  /** An instruction without a form that writes two variables. */
  function TwoOutputs(): Inst { Inst(0, [], [0, 1], false, false, false, NoTransfer) }

  function Numbered(): Semantics { (op, env, inputs, j: nat) => j }

  lemma NumberedWrites(s: Store)
    ensures TwoOutputs().Ok() && Read(ExecInst(Numbered(), TwoOutputs(), s, 0), 0) == 0
    ensures Read(ExecInst(Numbered(), TwoOutputs(), s, 0), 1) == 1
  {
    var inst := TwoOutputs();
    assert 0 in inst.defs && 1 in inst.defs;
    AssignOnce(s, inst.defs, Results(Numbered(), inst, s, 0), 0);
    AssignOnce(s, inst.defs, Results(Numbered(), inst, s, 0), 1);
  }

  /** Why one output: an instruction without a form that writes two variables leaves the same node for both, and no
      choice of outputs makes the node right for each. */
  lemma SharedNodeAmbiguous(s: Store, outputs: map<nat, Value>, f: Operation)
    ensures var bk := BooksAt(0, [TwoOutputs()], [NoForm], map[], 1);
            && TwoOutputs().Ok() && bk.pending.Keys == {0, 1} && bk.pending[0].expression == bk.pending[1].expression
            && exists v :: v in bk.pending
                           && Eval(bk.pending[v].expression, s, outputs, f) != Read(ExecInst(Numbered(), TwoOutputs(), s, 0), v)
  {
    var inst := TwoOutputs();
    var empty := BooksAt(0, [inst], [NoForm], map[], 0);
    var bk := BooksAt(0, [inst], [NoForm], map[], 1);
    var (taken, made) := Define(empty, 0, 0, inst, NoForm, map[]);
    RedefineKeeps(taken, inst.defs);
    RecordKeeps(RedefineAll(taken, inst.defs), 0, inst.defs, made);
    assert forall v :: v in inst.defs <==> v in {0, 1};
    assert forall v :: v in bk.pending <==> v in inst.defs;
    assert 0 in bk.pending && 1 in bk.pending;
    assert bk.pending[0] == made && bk.pending[1] == made;
    NumberedWrites(s);
    assert Eval(bk.pending[0].expression, s, outputs, f) != Read(ExecInst(Numbered(), inst, s, 0), 0)
        || Eval(bk.pending[1].expression, s, outputs, f) != Read(ExecInst(Numbered(), inst, s, 0), 1);
  }
}
