/** What value numbering must find: an expression computed again where nothing can have changed its operands. */
module RepeatedExpressions {
  import opened Wrappers
  import opened Program
  import opened EdgeKinds
  import opened Trails
  import opened Ways
  import opened Numbering
  import opened NumberingMeaning
  import opened NumberingSoundness

  /** Instructions `i..j` write none of `vs`. */
  predicate Unwritten(insts: seq<Inst>, vs: seq<Var>, i: nat, j: nat)
    requires j <= |insts|
  {
    forall k, v :: i <= k < j && v in vs ==> v !in insts[k].defs
  }

  /** Both instructions are pure, define something, and apply one operator to one list of variables. */
  predicate SameExpression(a: Inst, b: Inst) {
    a.pure && b.pure && a.defs != [] && b.defs != [] && a.op == b.op && a.uses == b.uses
  }

  /** No reachable block on a path to `y` that keeps clear of `d` writes any of `vs`. */
  ghost predicate NoSideWrites(p: Cfg, d: BlockId, y: BlockId, vs: seq<Var>) {
    forall t: Trail :: IsTrail(p, t) && t.To? && t.at == y && t.Avoids(d) && ReachableBlock(p, t.First()) ==>
      Unwritten(Insts(p, t.First()), vs, 0, |Insts(p, t.First())|)
  }

  /** An unwind edge out of `d` begins a path to `y` that keeps clear of `d`. */
  ghost predicate UnwindsTo(p: Cfg, d: BlockId, y: BlockId) {
    exists t: Trail, e ::
      && IsTrail(p, t) && t.at == y && t.Avoids(d)
      && e in p.edges && p.edges[e].source == d && p.edges[e].kind == ExceptionUnwind && p.edges[e].target == t.First()
  }

  /** No unwind that reaches `y` leaves `d` before its first `k` instructions are done. */
  ghost predicate DoneFirst(p: Cfg, d: BlockId, y: BlockId, k: nat) {
    UnwindsTo(p, d, y) ==> forall u :: 0 <= u < k && u < |Insts(p, d)| ==> !Insts(p, d)[u].mayUnwind
  }

  /** The tables number every variable of `vs` and know `op` applied to them as `n`. */
  predicate Knows(t: Tables, op: int, vs: seq<Var>, n: VN) {
    && (forall v :: v in vs ==> v in t.vars)
    && Key(op, NumbersOf(t, vs)) in t.exprs && t.exprs[Key(op, NumbersOf(t, vs))] == n
  }

  lemma {:induction false} DefsFromHas(insts: seq<Inst>, i: nat, j: nat, v: Var)
    requires i <= j <= |insts|
    ensures v in DefsFrom(insts, i, j) <==> exists k :: i <= k < j && v in insts[k].defs
    decreases j
  {
    if i < j {
      DefsFromHas(insts, i, j - 1, v);
    }
  }

  lemma SameNumbers(t: Tables, u: Tables, vs: seq<Var>)
    requires forall v :: v in vs ==> v in t.vars && v in u.vars && u.vars[v] == t.vars[v]
    ensures NumbersOf(u, vs) == NumbersOf(t, vs)
  {
  }

  /** Seeing variables that all have numbers changes nothing. */
  lemma {:induction false} SeeKnown(t: Tables, vs: seq<Var>)
    requires forall v :: v in vs ==> v in t.vars
    ensures SeeAll(t, vs) == t
  {
    if vs != [] {
      SeeKnown(t, vs[..|vs| - 1]);
      assert vs[|vs| - 1] in vs;
    }
  }

  /** Exactly the pure instructions that define something are given a number. */
  lemma NumberedExact(t: Tables, inst: Inst)
    ensures NumberInst(t, inst).1.value.Some? <==> inst.pure && inst.defs != []
  {
  }

  /** Once an instruction has been numbered its key is known, and all its definitions have its number. */
  lemma LearnKey(t: Tables, inst: Inst)
    requires Issued(t) && inst.pure && inst.defs != []
    ensures NumberInst(t, inst).1.value.Some?
    ensures var u, n := NumberInst(t, inst).0, NumberInst(t, inst).1.value.value;
            && KeyOf(t, inst) in u.exprs && u.exprs[KeyOf(t, inst)] == n
            && forall d :: d in inst.defs ==> d in u.vars && u.vars[d] == n
    ensures var u, seen := NumberInst(t, inst).0, SeeAll(t, inst.uses);
            forall v :: v in inst.uses && v !in inst.defs ==> v in u.vars && v in seen.vars && u.vars[v] == seen.vars[v]
  {
    hide Extends, NumbersOf;
    var seen, key, u := SeeAll(t, inst.uses), KeyOf(t, inst), NumberInst(t, inst).0;
    SeeAllStep(t, inst.uses);
    KeyIssued(t, inst);
    if key in seen.exprs {
      BindAllStep(seen, inst.defs, seen.exprs[key]);
    } else {
      AddKeyExtends(t, seen, key);
      BindAllStep(Tables(seen.vars, seen.exprs[key := seen.next], seen.next + 1), inst.defs, seen.next);
    }
  }

  /** Once an instruction that leaves its operands alone has been numbered, its expression is known under its number. */
  lemma LearnExpression(t: Tables, inst: Inst)
    requires Issued(t) && inst.pure && inst.defs != [] && forall v :: v in inst.uses ==> v !in inst.defs
    ensures NumberInst(t, inst).1.value.Some?
    ensures Knows(NumberInst(t, inst).0, inst.op, inst.uses, NumberInst(t, inst).1.value.value)
  {
    hide NumberInst, SeeAll;
    LearnKey(t, inst);
    SameNumbers(SeeAll(t, inst.uses), NumberInst(t, inst).0, inst.uses);
  }

  /** A known expression is redundant. */
  lemma KnownIsRedundant(t: Tables, inst: Inst, n: VN)
    requires Knows(t, inst.op, inst.uses, n) && inst.pure && inst.defs != []
    ensures NumberInst(t, inst).1 == Numbered(Some(n), true, None)
  {
    SeeKnown(t, inst.uses);
  }

  /** Numbering more instructions that write none of its operands keeps an expression known. */
  lemma StaysKnown(t: Tables, insts: seq<Inst>, i: nat, j: nat, op: int, vs: seq<Var>, n: VN)
    requires Issued(t) && i <= j <= |insts| && Unwritten(insts, vs, i, j) && Knows(TablesAt(t, insts, i), op, vs, n)
    ensures Knows(TablesAt(t, insts, j), op, vs, n)
  {
    NumberSpan(t, insts, i, j);
    forall v | v in vs ensures v !in DefsFrom(insts, i, j) {
      DefsFromHas(insts, i, j, v);
    }
    SameNumbers(TablesAt(t, insts, i), TablesAt(t, insts, j), vs);
  }

  /** Within one block, an expression computed again with no operand written in between is redundant and gets the
      number it had. */
  lemma FoundInBlock(t: Tables, insts: seq<Inst>, i: nat, j: nat)
    requires Issued(t) && i < j < |insts| && SameExpression(insts[i], insts[j]) && Unwritten(insts, insts[i].uses, i, j)
    ensures NumberedAt(t, insts, i).value.Some?
    ensures NumberedAt(t, insts, j) == Numbered(NumberedAt(t, insts, i).value, true, None)
  {
    var n := NumberedAt(t, insts, i).value;
    NumberSpan(t, insts, i, i);
    LearnExpression(TablesAt(t, insts, i), insts[i]);
    StaysKnown(t, insts, i + 1, j, insts[i].op, insts[i].uses, n.value);
    KnownIsRedundant(TablesAt(t, insts, j), insts[j], n.value);
  }

  lemma {:induction false} AppendHops(t: Trail, w: Way)
    requires t.To? || w.Hop?
    ensures Append(t, w).To?
    decreases w
  {
    if w.Hop? {
      AppendHops(To(t, w.rest.at), w.rest);
    }
  }

  /** What the side paths do not write is no side definition. */
  lemma SideUnwritten(p: Cfg, d: BlockId, y: BlockId, vs: seq<Var>, v: Var)
    requires NoSideWrites(p, d, y, vs) && v in vs
    ensures !SideDefinition(p, d, y, v)
  {
    forall z | Between(p, d, y, z) ensures forall i :: 0 <= i < |Insts(p, z)| ==> v !in Insts(p, z)[i].defs {
      var w: Way :| IsWay(p, w) && w.Hop? && w.at == z && w.End() == y && w.Avoids(d);
      AppendIsTrail(p, From(z), w, d);
      AppendHops(From(z), w);
      assert From(z).Avoids(d);
    }
  }

  lemma AfterUnwindMeans(p: Cfg, d: BlockId, y: BlockId)
    requires AfterUnwind(p, d, y)
    ensures UnwindsTo(p, d, y)
  {
    var t: Trail :| IsTrail(p, t) && t.at == y && t.Avoids(d) && UnwindSuccessor(p, d, t.First());
    var e :| e in p.edges && p.edges[e].source == d && IsUnwind(p.edges[e]) && p.edges[e].target == t.First();
  }

  lemma NothingForgotten(p: Cfg, d: BlockId, y: BlockId, k: nat, vs: seq<Var>, v: Var)
    requires k <= |Insts(p, d)| && Unwritten(Insts(p, d), vs, k, |Insts(p, d)|) && NoSideWrites(p, d, y, vs)
    requires DoneFirst(p, d, y, k) && v in vs
    ensures !Forgotten(p, d, y, v)
  {
    hide NoSideWrites, SideDefinition;
    SideUnwritten(p, d, y, vs, v);
    if AfterUnwind(p, d, y) {
      AfterUnwindMeans(p, d, y);
      DefsFromHas(Insts(p, d), FirstUnwind(p, d).value, |Insts(p, d)|, v);
    }
  }

  lemma NotHidden(p: Cfg, start: Start, d: BlockId, y: BlockId, k: nat, op: int, vs: seq<Var>, n: VN)
    requires d in start.at && Issued(start.at[d])
    requires k <= |Insts(p, d)| && Unwritten(Insts(p, d), vs, k, |Insts(p, d)|) && DoneFirst(p, d, y, k)
    requires Knows(TablesAt(start.at[d], Insts(p, d), k), op, vs, n)
    ensures Key(op, NumbersOf(TablesAt(start.at[d], Insts(p, d), |Insts(p, d)|), vs)) !in Hidden(p, start, d, y)
  {
    hide UnwindsTo, UnwindReaches, Extends;
    if AfterUnwind(p, d, y) {
      AfterUnwindMeans(p, d, y);
      var t, insts, first := start.at[d], Insts(p, d), FirstUnwind(p, d).value;
      StaysKnown(t, insts, k, first, op, vs, n);
      StaysKnown(t, insts, first, |insts|, op, vs, n);
      KnownNumbers(t, insts, first, op, vs, n);
      HideKeys(t, insts, first, |insts|);
    }
  }

  lemma KnownNumbers(t: Tables, insts: seq<Inst>, i: nat, op: int, vs: seq<Var>, n: VN)
    requires Issued(t) && i <= |insts| && Unwritten(insts, vs, i, |insts|) && Knows(TablesAt(t, insts, i), op, vs, n)
    ensures NumbersOf(TablesAt(t, insts, |insts|), vs) == NumbersOf(TablesAt(t, insts, i), vs)
  {
    NumberSpan(t, insts, i, |insts|);
    forall v | v in vs ensures v !in DefsFrom(insts, i, |insts|) {
      DefsFromHas(insts, i, |insts|, v);
    }
    SameNumbers(TablesAt(t, insts, i), TablesAt(t, insts, |insts|), vs);
  }

  /** What `d` knows from its instruction `k` on, the block it hands its tables to knows on entry. */
  lemma KnownOnEntry(p: Cfg, start: Start, d: BlockId, y: BlockId, k: nat, op: int, vs: seq<Var>, n: VN)
    requires d in start.at && Issued(start.at[d]) && EntryFrom(p, start, d, y)
    requires k <= |Insts(p, d)| && Unwritten(Insts(p, d), vs, k, |Insts(p, d)|)
    requires NoSideWrites(p, d, y, vs) && DoneFirst(p, d, y, k)
    requires Knows(TablesAt(start.at[d], Insts(p, d), k), op, vs, n)
    ensures Knows(start.at[y], op, vs, n)
  {
    hide Forgotten, Hidden, NoSideWrites, DoneFirst, Unwritten, InjectiveFrom, Issued;
    var e := TablesAt(start.at[d], Insts(p, d), |Insts(p, d)|);
    StaysKnown(start.at[d], Insts(p, d), k, |Insts(p, d)|, op, vs, n);
    NotHidden(p, start, d, y, k, op, vs, n);
    forall v | v in vs ensures !Forgotten(p, d, y, v) {
      NothingForgotten(p, d, y, k, vs, v);
    }
    SameNumbers(e, start.at[y], vs);
  }

  /** Instruction `a` is the last of the first `i` to write `u`. */
  predicate LastWrites(insts: seq<Inst>, a: nat, i: nat, u: Var)
    requires i <= |insts|
  {
    a < i && u in insts[a].defs && forall k :: a < k < i ==> u !in insts[k].defs
  }

  /** Before instruction `i` variable `u` holds what `w` holds before instruction `j`: it is the same variable and not
      written from one to the other, or each was written last by an instruction with one number. */
  ghost predicate SameValue(insts: seq<Inst>, numbers: seq<Option<VN>>, i: nat, u: Var, j: nat, w: Var)
    requires i <= j <= |insts| == |numbers|
  {
    || (u == w && forall k :: i <= k < j ==> u !in insts[k].defs)
    || exists a: nat, b: nat {:trigger LastWrites(insts, a, i, u), LastWrites(insts, b, j, w)} ::
         LastWrites(insts, a, i, u) && LastWrites(insts, b, j, w) && numbers[a] == numbers[b] != None
  }

  /** The two instructions apply one operator to operands that hold the same values, position by position. */
  ghost predicate Congruent(insts: seq<Inst>, numbers: seq<Option<VN>>, i: nat, j: nat)
    requires i < j < |insts| == |numbers|
  {
    && insts[i].pure && insts[j].pure && insts[i].defs != [] && insts[j].defs != [] && insts[i].op == insts[j].op
    && |insts[i].uses| == |insts[j].uses|
    && forall m :: 0 <= m < |insts[i].uses| ==> SameValue(insts, numbers, i, insts[i].uses[m], j, insts[j].uses[m])
  }

  /** A variable keeps its number while it is not written. */
  lemma NumberStays(t: Tables, insts: seq<Inst>, i: nat, j: nat, v: Var)
    requires Issued(t) && i <= j <= |insts| && v in TablesAt(t, insts, i).vars && forall k :: i <= k < j ==> v !in insts[k].defs
    ensures v in TablesAt(t, insts, j).vars && TablesAt(t, insts, j).vars[v] == TablesAt(t, insts, i).vars[v]
  {
    NumberSpan(t, insts, i, j);
    DefsFromHas(insts, i, j, v);
  }

  /** A variable holds the number of the instruction that wrote it last. */
  lemma WriterNumbers(t: Tables, insts: seq<Inst>, a: nat, i: nat, u: Var)
    requires Issued(t) && i <= |insts| && LastWrites(insts, a, i, u) && NumberedAt(t, insts, a).value.Some?
    ensures u in TablesAt(t, insts, i).vars && TablesAt(t, insts, i).vars[u] == NumberedAt(t, insts, a).value.value
  {
    hide NumberInst;
    NumberSpan(t, insts, a, a);
    NumberedExact(TablesAt(t, insts, a), insts[a]);
    LearnKey(TablesAt(t, insts, a), insts[a]);
    NumberStays(t, insts, a + 1, i, u);
  }

  /** Seeing operands changes no number there was. */
  lemma SeenNumber(t: Tables, vs: seq<Var>, v: Var)
    requires Issued(t) && v in t.vars
    ensures v in SeeAll(t, vs).vars && SeeAll(t, vs).vars[v] == t.vars[v]
  {
    SeeAllStep(t, vs);
  }

  lemma SameOperand(t: Tables, insts: seq<Inst>, numbers: seq<Option<VN>>, i: nat, j: nat, m: nat)
    requires Issued(t) && i < j < |insts| == |numbers| && Congruent(insts, numbers, i, j) && m < |insts[i].uses|
    requires forall k :: 0 <= k < |insts| ==> numbers[k] == NumberedAt(t, insts, k).value
    ensures NumberOf(SeeAll(TablesAt(t, insts, i), insts[i].uses), insts[i].uses[m]) ==
            NumberOf(SeeAll(TablesAt(t, insts, j), insts[j].uses), insts[j].uses[m])
  {
    hide NumberInst, TablesAt, SeeAll;
    var u, w := insts[i].uses[m], insts[j].uses[m];
    assert SameValue(insts, numbers, i, u, j, w);
    NumberSpan(t, insts, i, j);
    if u == w && forall k :: i <= k < j ==> u !in insts[k].defs {
      LearnKey(TablesAt(t, insts, i), insts[i]);
      AfterInst(t, insts, i);
      NumberStays(t, insts, i + 1, j, u);
      SeenNumber(TablesAt(t, insts, j), insts[j].uses, u);
    } else {
      var a: nat, b: nat :| LastWrites(insts, a, i, u) && LastWrites(insts, b, j, w) && numbers[a] == numbers[b] != None;
      WriterNumbers(t, insts, a, i, u);
      WriterNumbers(t, insts, b, j, w);
      SeenNumber(TablesAt(t, insts, i), insts[i].uses, u);
      SeenNumber(TablesAt(t, insts, j), insts[j].uses, w);
    }
  }

  lemma AfterInst(t: Tables, insts: seq<Inst>, i: nat)
    requires i < |insts|
    ensures TablesAt(t, insts, i + 1) == NumberInst(TablesAt(t, insts, i), insts[i]).0
    ensures NumberedAt(t, insts, i) == NumberInst(TablesAt(t, insts, i), insts[i]).1
  {
  }

  /** Within one block, an instruction congruent to an earlier one is redundant and gets the number of the earlier one. */
  lemma CongruentFound(t: Tables, insts: seq<Inst>, numbers: seq<Option<VN>>, i: nat, j: nat)
    requires Issued(t) && i < j < |insts| == |numbers| && Congruent(insts, numbers, i, j)
    requires forall k :: 0 <= k < |insts| ==> numbers[k] == NumberedAt(t, insts, k).value
    ensures NumberedAt(t, insts, i).value.Some?
    ensures NumberedAt(t, insts, j) == Numbered(NumberedAt(t, insts, i).value, true, None)
  {
    hide TablesAt, Extends, SameValue;
    var before, now := TablesAt(t, insts, i), TablesAt(t, insts, j);
    NumberSpan(t, insts, i, j);
    LearnKey(before, insts[i]);
    forall m | 0 <= m < |insts[i].uses|
      ensures NumberOf(SeeAll(before, insts[i].uses), insts[i].uses[m]) == NumberOf(SeeAll(now, insts[j].uses), insts[j].uses[m])
    {
      SameOperand(t, insts, numbers, i, j, m);
    }
    assert KeyOf(before, insts[i]) == KeyOf(now, insts[j]);
    AfterInst(t, insts, i);
    AfterInst(t, insts, j);
    KeyStays(t, insts, i + 1, j, KeyOf(before, insts[i]));
    SeeAllStep(now, insts[j].uses);
  }

  lemma KeyStays(t: Tables, insts: seq<Inst>, i: nat, j: nat, key: Key)
    requires Issued(t) && i <= j <= |insts| && key in TablesAt(t, insts, i).exprs
    ensures key in TablesAt(t, insts, j).exprs && TablesAt(t, insts, j).exprs[key] == TablesAt(t, insts, i).exprs[key]
  {
    NumberSpan(t, insts, i, j);
  }
}
