/** The numbering rule, on values: which tables an instruction leaves behind. */
module Numbering {
  import opened Wrappers
  import opened Program

  type VN = nat

  datatype Key = Key(op: int, operands: seq<VN>)

  datatype Tables = Tables(vars: map<Var, VN>, exprs: map<Key, VN>, next: VN)

  /** How one instruction was numbered. */
  datatype Numbered = Numbered(value: Option<VN>, redundant: bool, introduced: Option<Key>)

  function Bind(t: Tables, v: Var, n: VN): Tables { t.(vars := t.vars[v := n]) }

  function Redefine(t: Tables, v: Var): Tables { Bind(t, v, t.next).(next := t.next + 1) }

  /** The tables once `v` has a number; a variable never seen gets one of its own. */
  function See(t: Tables, v: Var): Tables { if v in t.vars then t else Redefine(t, v) }

  function SeeAll(t: Tables, vs: seq<Var>): Tables {
    if vs == [] then t else See(SeeAll(t, vs[..|vs| - 1]), vs[|vs| - 1])
  }

  function RedefineAll(t: Tables, vs: seq<Var>): Tables {
    if vs == [] then t else Redefine(RedefineAll(t, vs[..|vs| - 1]), vs[|vs| - 1])
  }

  function BindAll(t: Tables, vs: seq<Var>, n: VN): Tables {
    if vs == [] then t else Bind(BindAll(t, vs[..|vs| - 1], n), vs[|vs| - 1], n)
  }

  function NumberOf(t: Tables, v: Var): VN { if v in t.vars then t.vars[v] else 0 }

  function NumbersOf(t: Tables, vs: seq<Var>): seq<VN> {
    seq(|vs|, i requires 0 <= i < |vs| => NumberOf(t, vs[i]))
  }

  predicate IsNumbered(inst: Inst) { inst.pure && inst.defs != [] }

  function KeyOf(t: Tables, inst: Inst): Key { Key(inst.op, NumbersOf(SeeAll(t, inst.uses), inst.uses)) }

  /** A pure instruction that defines something is keyed by its operator and the numbers of its operands. Every
      other instruction gives each definition a fresh number. */
  function NumberInst(t: Tables, inst: Inst): (Tables, Numbered) {
    if !IsNumbered(inst) then (RedefineAll(t, inst.defs), Numbered(None, false, None))
    else
      var seen, key := SeeAll(t, inst.uses), KeyOf(t, inst);
      if key in seen.exprs then
        (BindAll(seen, inst.defs, seen.exprs[key]), Numbered(Some(seen.exprs[key]), true, None))
      else
        var added := Tables(seen.vars, seen.exprs[key := seen.next], seen.next + 1);
        (BindAll(added, inst.defs, seen.next), Numbered(Some(seen.next), false, Some(key)))
  }

  /** The tables before instruction `i` when the block starts from `t`. */
  function TablesAt(t: Tables, insts: seq<Inst>, i: nat): Tables
    requires i <= |insts|
  {
    if i == 0 then t else NumberInst(TablesAt(t, insts, i - 1), insts[i - 1]).0
  }

  function NumberedAt(t: Tables, insts: seq<Inst>, i: nat): Numbered
    requires i < |insts|
  {
    NumberInst(TablesAt(t, insts, i), insts[i]).1
  }

  /** Every number in the tables has been handed out. */
  ghost predicate Issued(t: Tables) {
    && (forall v {:trigger t.vars[v]} :: v in t.vars ==> t.vars[v] < t.next)
    && (forall k {:trigger t.exprs[k]} :: k in t.exprs ==> t.exprs[k] < t.next)
    && (forall k, n {:trigger n in k.operands} :: k in t.exprs && n in k.operands ==> n < t.next)
  }

  /** `u` extends `t` by an execution that defines only variables of `defs`: no number is reused, expressions stay,
      and a variable outside `defs` keeps its number or gets one of its own. */
  ghost predicate Extends(t: Tables, u: Tables, defs: set<Var>) {
    && t.next <= u.next
    && (forall k {:trigger u.exprs[k]} {:trigger k in t.exprs} :: k in t.exprs ==> k in u.exprs && u.exprs[k] == t.exprs[k])
    && (forall v {:trigger u.vars[v]} {:trigger v in t.vars} :: v in t.vars && v !in defs ==>
          v in u.vars && u.vars[v] == t.vars[v])
    && (forall v {:trigger u.vars[v]} :: v in u.vars && v !in t.vars && v !in defs ==> u.vars[v] >= t.next)
    && (forall v, w {:trigger u.vars[v], u.vars[w]} ::
          (v in u.vars && w in u.vars && v != w && v !in defs && w !in defs && u.vars[v] >= t.next && u.vars[w] >= t.next)
          ==> u.vars[v] != u.vars[w])
  }

  lemma ExtendsTrans(t: Tables, u: Tables, w: Tables, d: set<Var>, e: set<Var>)
    requires Issued(t) && Issued(u) && Extends(t, u, d) && Extends(u, w, e)
    ensures Extends(t, w, d + e)
  {
  }

  lemma SeeStep(t: Tables, v: Var)
    requires Issued(t)
    ensures Issued(See(t, v)) && Extends(t, See(t, v), {}) && v in See(t, v).vars
  {
  }

  lemma {:induction false} SeeAllStep(t: Tables, vs: seq<Var>)
    requires Issued(t)
    ensures Issued(SeeAll(t, vs)) && Extends(t, SeeAll(t, vs), {}) && SeeAll(t, vs).exprs == t.exprs
    ensures forall v :: v in vs ==> v in SeeAll(t, vs).vars
    ensures forall v :: v in SeeAll(t, vs).vars ==> v in t.vars || v in vs
  {
    if vs != [] {
      var before := SeeAll(t, vs[..|vs| - 1]);
      SeeAllStep(t, vs[..|vs| - 1]);
      SeeStep(before, vs[|vs| - 1]);
      ExtendsTrans(t, before, SeeAll(t, vs), {}, {});
      assert vs == vs[..|vs| - 1] + [vs[|vs| - 1]];
    }
  }

  lemma {:induction false} BindAllStep(t: Tables, vs: seq<Var>, n: VN)
    requires Issued(t) && n < t.next
    ensures Issued(BindAll(t, vs, n)) && BindAll(t, vs, n).exprs == t.exprs && BindAll(t, vs, n).next == t.next
    ensures forall v {:trigger BindAll(t, vs, n).vars[v]} :: v in BindAll(t, vs, n).vars <==> v in t.vars || v in vs
    ensures forall v :: v in BindAll(t, vs, n).vars ==> BindAll(t, vs, n).vars[v] == if v in vs then n else t.vars[v]
  {
    if vs != [] {
      BindAllStep(t, vs[..|vs| - 1], n);
      assert vs == vs[..|vs| - 1] + [vs[|vs| - 1]];
    }
  }

  lemma {:induction false} RedefineAllStep(t: Tables, vs: seq<Var>)
    requires Issued(t)
    ensures var u := RedefineAll(t, vs);
            && Issued(u) && u.exprs == t.exprs && u.next >= t.next
            && (forall v :: v in u.vars <==> v in t.vars || v in vs)
            && (forall v :: v in u.vars && v !in vs ==> u.vars[v] == t.vars[v])
            && (forall v :: v in vs ==> u.vars[v] >= t.next)
            && (forall v, w :: v in vs && w in vs && v != w ==> u.vars[v] != u.vars[w])
  {
    if vs != [] {
      RedefineAllStep(t, vs[..|vs| - 1]);
      assert vs == vs[..|vs| - 1] + [vs[|vs| - 1]];
    }
  }

  lemma KeyIssued(t: Tables, inst: Inst)
    requires Issued(t)
    ensures forall n :: n in KeyOf(t, inst).operands ==> n < SeeAll(t, inst.uses).next
  {
    var seen, key := SeeAll(t, inst.uses), KeyOf(t, inst);
    SeeAllStep(t, inst.uses);
    forall n | n in key.operands ensures n < seen.next {
      var i :| 0 <= i < |inst.uses| && n == NumberOf(seen, inst.uses[i]);
      assert inst.uses[i] in inst.uses;
    }
  }

  /** After the operands are seen, binding the definitions to one number changes nothing else. */
  lemma BindExtends(t: Tables, seen: Tables, vs: seq<Var>, n: VN)
    requires Issued(t) && Issued(seen) && Extends(t, seen, {}) && n < seen.next
    ensures Issued(BindAll(seen, vs, n)) && Extends(t, BindAll(seen, vs, n), Elems(vs))
  {
    BindAllStep(seen, vs, n);
  }

  lemma AddKeyExtends(t: Tables, seen: Tables, key: Key)
    requires Issued(t) && Issued(seen) && Extends(t, seen, {})
    requires key !in seen.exprs && forall n :: n in key.operands ==> n < seen.next
    ensures var added := Tables(seen.vars, seen.exprs[key := seen.next], seen.next + 1);
            Issued(added) && Extends(t, added, {})
  {
  }

  /** Numbering one instruction reuses no number and forgets no expression. */
  lemma NumberStep(t: Tables, inst: Inst)
    requires Issued(t)
    ensures Issued(NumberInst(t, inst).0) && Extends(t, NumberInst(t, inst).0, Elems(inst.defs))
  {
    if !IsNumbered(inst) {
      RedefineAllStep(t, inst.defs);
    } else {
      NumberPure(t, inst);
    }
  }

  lemma NumberPure(t: Tables, inst: Inst)
    requires Issued(t) && IsNumbered(inst)
    ensures Issued(NumberInst(t, inst).0) && Extends(t, NumberInst(t, inst).0, Elems(inst.defs))
  {
    var seen, key := SeeAll(t, inst.uses), KeyOf(t, inst);
    SeeAllStep(t, inst.uses);
    KeyIssued(t, inst);
    if key in seen.exprs {
      BindExtends(t, seen, inst.defs, seen.exprs[key]);
    } else {
      AddKeyExtends(t, seen, key);
      BindExtends(t, Tables(seen.vars, seen.exprs[key := seen.next], seen.next + 1), inst.defs, seen.next);
    }
  }

  function DefsFrom(insts: seq<Inst>, i: nat, j: nat): set<Var>
    requires i <= j <= |insts|
    decreases j
  {
    if i == j then {} else DefsFrom(insts, i, j - 1) + Elems(insts[j - 1].defs)
  }

  lemma {:induction false} NumberSpan(t: Tables, insts: seq<Inst>, i: nat, j: nat)
    requires Issued(t) && i <= j <= |insts|
    ensures Issued(TablesAt(t, insts, i)) && Issued(TablesAt(t, insts, j))
    ensures Extends(TablesAt(t, insts, i), TablesAt(t, insts, j), DefsFrom(insts, i, j))
    decreases j
  {
    if i < j {
      NumberSpan(t, insts, i, j - 1);
      NumberStep(TablesAt(t, insts, j - 1), insts[j - 1]);
      ExtendsTrans(TablesAt(t, insts, i), TablesAt(t, insts, j - 1), TablesAt(t, insts, j), DefsFrom(insts, i, j - 1),
                   Elems(insts[j - 1].defs));
    } else if i > 0 {
      NumberSpan(t, insts, i - 1, i - 1);
      NumberStep(TablesAt(t, insts, i - 1), insts[i - 1]);
    }
  }

  /** Expressions first made available from instruction `i` on. */
  function KeysFrom(t: Tables, insts: seq<Inst>, i: nat, j: nat): set<Key>
    requires i <= j <= |insts|
    decreases j
  {
    if i == j then {}
    else
      var key := NumberedAt(t, insts, j - 1).introduced;
      KeysFrom(t, insts, i, j - 1) + if key.Some? then {key.value} else {}
  }

  /** Hiding what was introduced from `i` on leaves exactly what was available at `i`. */
  lemma {:induction false} HideKeys(t: Tables, insts: seq<Inst>, i: nat, j: nat)
    requires Issued(t) && i <= j <= |insts|
    ensures TablesAt(t, insts, j).exprs - KeysFrom(t, insts, i, j) == TablesAt(t, insts, i).exprs
    ensures TablesAt(t, insts, i).exprs.Keys !! KeysFrom(t, insts, i, j)
    decreases j
  {
    if i < j {
      HideKeys(t, insts, i, j - 1);
      NumberSpan(t, insts, i, j - 1);
      var before, inst := TablesAt(t, insts, j - 1), insts[j - 1];
      NumberExprs(before, inst);
    }
  }

  lemma NumberExprs(t: Tables, inst: Inst)
    requires Issued(t)
    ensures var (u, n) := NumberInst(t, inst);
            match n.introduced
            case None => u.exprs == t.exprs
            case Some(key) => key !in t.exprs && n.value.Some? && u.exprs == t.exprs[key := n.value.value]
  {
    if !IsNumbered(inst) {
      RedefineAllStep(t, inst.defs);
    } else {
      var seen, key := SeeAll(t, inst.uses), KeyOf(t, inst);
      SeeAllStep(t, inst.uses);
      if key in seen.exprs {
        BindAllStep(seen, inst.defs, seen.exprs[key]);
      } else {
        BindAllStep(Tables(seen.vars, seen.exprs[key := seen.next], seen.next + 1), inst.defs, seen.next);
      }
    }
  }
}
