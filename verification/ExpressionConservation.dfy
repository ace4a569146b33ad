/** Which definitions recovered trees hold, told from the instructions alone, and when none is dropped. */
module ExpressionConservation {
  import opened Wrappers
  import opened Program
  import opened Expressions
  import opened ExpressionMeaning
  import opened ExpressionAccounting
  import opened ExpressionRecovery

  /** The last of the first `k` instructions that writes `v`. */
  function LastWrite(insts: seq<Inst>, v: Var, k: nat): (r: Option<nat>)
    requires k <= |insts|
    ensures match r
            case Some(j) => j < k && v in insts[j].defs && forall i :: j < i < k ==> v !in insts[i].defs
            case None => forall i :: 0 <= i < k ==> v !in insts[i].defs
  {
    if k == 0 then None else if v in insts[k - 1].defs then Some(k - 1) else LastWrite(insts, v, k - 1)
  }

  predicate Unwritten(insts: seq<Inst>, v: Var, j: nat, k: nat)
    requires k <= |insts|
  {
    forall i :: j <= i < k ==> v !in insts[i].defs
  }

  /** Operand `m` of instruction `k` takes a definition in: it is the block's only read of its variable, the definition is
      the last write before it and has a tree, and nothing that tree reads has been written since. */
  ghost predicate Absorbs(insts: seq<Inst>, forms: seq<Form>, k: nat, m: nat)
    requires k < |insts| == |forms| && forms[k].OpForm? && m < |forms[k].operands|
    decreases k, 0
  {
    var v := forms[k].operands[m];
    && AllUses(insts)[v] == 1 && v !in forms[k].operands[..m]
    && match LastWrite(insts, v, k)
       case None => false
       case Some(j) => v in RecordedDefs(insts[j], forms[j]) && Lasts(insts, forms, j, k)
  }

  /** Nothing the tree of instruction `j` reads is written from `j` to `k`. */
  ghost predicate Lasts(insts: seq<Inst>, forms: seq<Form>, j: nat, k: nat)
    requires j < k <= |insts| == |forms|
    decreases j, 2
  {
    match forms[j]
    case ConstForm(_) => true
    case NoForm => forall i :: 0 <= i < |insts[j].uses| ==> Unwritten(insts, insts[j].uses[i], j, k)
    case OpForm(_, vs) => forall m {:trigger vs[m]} :: 0 <= m < |vs| ==> OperandLasts(insts, forms, j, m, vs[m], k)
  }

  ghost predicate OperandLasts(insts: seq<Inst>, forms: seq<Form>, j: nat, m: nat, v: Var, k: nat)
    requires j < k <= |insts| == |forms| && forms[j].OpForm? && m < |forms[j].operands| && v == forms[j].operands[m]
    decreases j, 1
  {
    if Absorbs(insts, forms, j, m) then Lasts(insts, forms, LastWrite(insts, v, j).value, k) else Unwritten(insts, v, j, k)
  }

  ghost predicate Takes(insts: seq<Inst>, forms: seq<Form>, k: nat, m: nat)
    requires |insts| == |forms|
  {
    k < |insts| && forms[k].OpForm? && m < |forms[k].operands| && Absorbs(insts, forms, k, m)
  }

  /** What operand `m` of instruction `k` takes in. */
  ghost function Taken(insts: seq<Inst>, forms: seq<Form>, k: nat, m: nat): Def
    requires |insts| == |forms| && Takes(insts, forms, k, m)
  {
    Def(LastWrite(insts, forms[k].operands[m], k).value, forms[k].operands[m])
  }

  /** The tree of instruction `at`. */
  ghost function Tree(block: BlockId, insts: seq<Inst>, forms: seq<Form>, at: nat): Expr
    requires at < |insts| == |forms|
    decreases at
  {
    match forms[at]
    case ConstForm(c) => Constant(c)
    case NoForm => Sealed(block, at)
    case OpForm(op, vs) =>
      Op(op, seq(|vs|, m requires 0 <= m < |vs| =>
           if Absorbs(insts, forms, at, m) then Tree(block, insts, forms, LastWrite(insts, vs[m], at).value) else Leaf(vs[m])))
  }

  /** How many times the first `k` instructions write `v`. */
  function Writes(insts: seq<Inst>, v: Var, k: nat): nat
    requires k <= |insts|
  {
    if k == 0 then 0 else Writes(insts, v, k - 1) + multiset(insts[k - 1].defs)[v]
  }

  lemma {:induction false} WritesUnwritten(insts: seq<Inst>, v: Var, j: nat, k: nat)
    requires j <= k <= |insts|
    ensures Writes(insts, v, j) <= Writes(insts, v, k)
    ensures Writes(insts, v, j) == Writes(insts, v, k) <==> Unwritten(insts, v, j, k)
  {
    if j < k {
      WritesUnwritten(insts, v, j, k - 1);
      assert v in multiset(insts[k - 1].defs) <==> v in insts[k - 1].defs;
    }
  }

  /** What the tree of instruction `j` reads, each variable with its number of writes so far. */
  ghost function Seen(insts: seq<Inst>, forms: seq<Form>, j: nat): Reads
    requires j < |insts| == |forms|
    decreases j, 1, 0
  {
    match forms[j]
    case ConstForm(_) => []
    case NoForm => seq(|insts[j].uses|, i requires 0 <= i < |insts[j].uses| => (insts[j].uses[i], Writes(insts, insts[j].uses[i], j)))
    case OpForm(_, vs) => SeenUpTo(insts, forms, j, |vs|)
  }

  ghost function SeenUpTo(insts: seq<Inst>, forms: seq<Form>, j: nat, m: nat): Reads
    requires j < |insts| == |forms| && forms[j].OpForm? && m <= |forms[j].operands|
    decreases j, 0, m
  {
    if m == 0 then []
    else SeenUpTo(insts, forms, j, m - 1) + SeenBy(insts, forms, j, m - 1)
  }

  ghost function SeenBy(insts: seq<Inst>, forms: seq<Form>, j: nat, m: nat): Reads
    requires j < |insts| == |forms| && forms[j].OpForm? && m < |forms[j].operands|
    decreases j, 0, m
  {
    var v := forms[j].operands[m];
    if Absorbs(insts, forms, j, m) then Seen(insts, forms, LastWrite(insts, v, j).value) else [(v, Writes(insts, v, j))]
  }

  /** None of these variables has been written since. */
  ghost predicate Stands(insts: seq<Inst>, seen: Reads, k: nat)
    requires k <= |insts|
  {
    forall i :: 0 <= i < |seen| ==> Writes(insts, seen[i].0, k) == seen[i].1
  }

  lemma StandsBoth(insts: seq<Inst>, a: Reads, b: Reads, k: nat)
    requires k <= |insts|
    ensures Stands(insts, a + b, k) <==> Stands(insts, a, k) && Stands(insts, b, k)
  {
    if Stands(insts, a + b, k) {
      assert forall i :: 0 <= i < |a| ==> (a + b)[i] == a[i];
      assert forall i :: 0 <= i < |b| ==> (a + b)[|a| + i] == b[i];
    }
  }

  lemma OperandsLast(insts: seq<Inst>, forms: seq<Form>, j: nat, k: nat)
    requires j < k <= |insts| == |forms| && forms[j].OpForm?
    ensures var vs := forms[j].operands;
            Lasts(insts, forms, j, k) <==> forall m {:trigger vs[m]} :: 0 <= m < |vs| ==> OperandLasts(insts, forms, j, m, vs[m], k)
  {
  }

  /** A tree lasts exactly when what it has read stands. */
  lemma {:induction false} SeenLasts(insts: seq<Inst>, forms: seq<Form>, j: nat, k: nat)
    requires j < k <= |insts| == |forms|
    ensures Stands(insts, Seen(insts, forms, j), k) <==> Lasts(insts, forms, j, k)
    decreases j, 1, 0
  {
    match forms[j]
    case ConstForm(_) =>
    case NoForm =>
      forall i | 0 <= i < |insts[j].uses|
        ensures Writes(insts, insts[j].uses[i], k) == Writes(insts, insts[j].uses[i], j) <==> Unwritten(insts, insts[j].uses[i], j, k)
      {
        WritesUnwritten(insts, insts[j].uses[i], j, k);
      }
      var seen := Seen(insts, forms, j);
      assert forall i :: 0 <= i < |seen| ==> seen[i] == (insts[j].uses[i], Writes(insts, insts[j].uses[i], j));
    case OpForm(_, vs) =>
      SeenUpToLasts(insts, forms, j, |vs|, k);
      OperandsLast(insts, forms, j, k);
  }

  lemma {:induction false} SeenUpToLasts(insts: seq<Inst>, forms: seq<Form>, j: nat, m: nat, k: nat)
    requires j < k <= |insts| == |forms| && forms[j].OpForm? && m <= |forms[j].operands|
    ensures var vs := forms[j].operands;
            Stands(insts, SeenUpTo(insts, forms, j, m), k) <==>
            forall i {:trigger vs[i]} :: 0 <= i < m ==> OperandLasts(insts, forms, j, i, vs[i], k)
    decreases j, 0, m
  {
    hide Seen, Writes, AllUses, RecordedDefs;
    if m > 0 {
      SeenUpToLasts(insts, forms, j, m - 1, k);
      StandsBoth(insts, SeenUpTo(insts, forms, j, m - 1), SeenBy(insts, forms, j, m - 1), k);
      var v := forms[j].operands[m - 1];
      if Absorbs(insts, forms, j, m - 1) {
        SeenLasts(insts, forms, LastWrite(insts, v, j).value, k);
      } else {
        WritesUnwritten(insts, v, j, k);
        assert SeenBy(insts, forms, j, m - 1)[0] == (v, Writes(insts, v, j));
      }
      assert Stands(insts, SeenBy(insts, forms, j, m - 1), k) <==> OperandLasts(insts, forms, j, m - 1, v, k);
    }
  }

  /** An absorbed variable has one reader. */
  lemma {:induction false} OneReader(insts: seq<Inst>, v: Var, a: nat)
    requires a < |insts| && v in insts[a].uses
    ensures AllUses(insts)[v] >= 1
    ensures forall b :: 0 <= b < |insts| && b != a && v in insts[b].uses ==> AllUses(insts)[v] >= 2
  {
    var n := |insts| - 1;
    assert v in multiset(insts[n].uses) <==> v in insts[n].uses;
    if a < n {
      OneReader(insts[..n], v, a);
      assert forall b :: 0 <= b < n ==> insts[..n][b] == insts[b];
    } else {
      forall b | 0 <= b < n && v in insts[b].uses ensures AllUses(insts)[v] >= 2 {
        assert insts[..n][b] == insts[b];
        OneReader(insts[..n], v, b);
      }
    }
  }

  /** The definition of `v` that is pending before instruction `k`, when there is one: its last write, unless that left no
      tree or has been taken in. */
  ghost predicate Pends(insts: seq<Inst>, forms: seq<Form>, v: Var, k: nat)
    requires k <= |insts| == |forms|
  {
    match LastWrite(insts, v, k)
    case None => false
    case Some(j) => v in RecordedDefs(insts[j], forms[j]) && !TakenBetween(insts, forms, v, j, k)
  }

  ghost predicate TakenBetween(insts: seq<Inst>, forms: seq<Form>, v: Var, j: nat, k: nat)
    requires |insts| == |forms|
  {
    exists i: nat, m: nat {:trigger Takes(insts, forms, i, m)} :: j < i < k && Takes(insts, forms, i, m) && forms[i].operands[m] == v
  }

  /** The books before instruction `k`, told from the instructions alone. */
  ghost predicate Tracks(insts: seq<Inst>, forms: seq<Form>, bk: Books, k: nat)
    requires k <= |insts| == |forms|
  {
    && bk.madeAt.Keys == bk.pending.Keys && |bk.lostAt| == |bk.overwritten|
    && (forall v {:trigger Generation(bk, v)} :: Generation(bk, v) == Writes(insts, v, k))
    && (forall v {:trigger bk.pending[v]} {:trigger Pends(insts, forms, v, k)} :: v in bk.pending <==> Pends(insts, forms, v, k))
    && (forall v {:trigger bk.pending[v]} :: v in bk.pending ==>
          Some(bk.madeAt[v]) == LastWrite(insts, v, k) && bk.pending[v].seen == Seen(insts, forms, bk.madeAt[v]))
    && FedTracks(insts, forms, bk, k)
  }

  ghost predicate FedTracks(insts: seq<Inst>, forms: seq<Form>, bk: Books, k: nat)
    requires k <= |insts| == |forms|
  {
    && (forall i: nat, m: nat {:trigger Takes(insts, forms, i, m)} {:trigger (i, m) in bk.fed} ::
          (i, m) in bk.fed <==> i < k && Takes(insts, forms, i, m))
    && (forall i: nat, m: nat {:trigger bk.fed[(i, m)]} :: (i, m) in bk.fed && Takes(insts, forms, i, m) ==>
          bk.fed[(i, m)] == Taken(insts, forms, i, m))
  }

  predicate First(vs: seq<Var>, m: nat)
    requires m < |vs|
  {
    vs[m] !in vs[..m]
  }

  /** What the first `m` operands leave pending and what they have taken: the first read of each variable decides. */
  ghost predicate OperandsTake(bk: Books, after: Books, k: nat, vs: seq<Var>, uses: map<Var, nat>, m: nat)
    requires m <= |vs| && bk.madeAt.Keys == bk.pending.Keys
  {
    && after.madeAt.Keys == after.pending.Keys && after.count == bk.count
    && after.lostAt == bk.lostAt && after.overwritten == bk.overwritten
    && (forall v {:trigger after.pending[v]} {:trigger v in after.pending} ::
          v in after.pending <==> v in bk.pending && !(v in vs[..m] && Absorbable(bk, v, SingleUse(uses, v))))
    && (forall v {:trigger after.pending[v]} :: v in after.pending ==>
          after.pending[v] == bk.pending[v] && after.madeAt[v] == bk.madeAt[v])
    && (forall i: nat, j: nat {:trigger (i, j) in after.fed} :: (i, j) in after.fed <==>
          (i, j) in bk.fed || (i == k && j < m && First(vs, j) && Absorbable(bk, vs[j], SingleUse(uses, vs[j]))))
    && (forall i: nat, j: nat {:trigger after.fed[(i, j)]} :: (i, j) in after.fed ==>
          after.fed[(i, j)] == if (i, j) in bk.fed then bk.fed[(i, j)] else Def(bk.madeAt[vs[j]], vs[j]))
  }

  lemma OperandTakes(bk: Books, before: Books, k: nat, vs: seq<Var>, uses: map<Var, nat>, m: nat)
    requires m < |vs| && bk.madeAt.Keys == bk.pending.Keys && OperandsTake(bk, before, k, vs, uses, m)
    requires forall j: nat :: (k, j) !in bk.fed
    ensures OperandsTake(bk, Operand(before, k, m, vs[m], SingleUse(uses, vs[m])).0, k, vs, uses, m + 1)
    ensures Absorbable(before, vs[m], SingleUse(uses, vs[m])) <==> First(vs, m) && Absorbable(bk, vs[m], SingleUse(uses, vs[m]))
  {
    TakeNext(vs, m);
    var v := vs[m];
    assert Absorbable(before, v, SingleUse(uses, v)) <==> First(vs, m) && Absorbable(bk, v, SingleUse(uses, v)) by {
      if v in before.pending {
        assert before.pending[v] == bk.pending[v];
        assert forall w :: Generation(before, w) == Generation(bk, w);
      }
    }
  }

  lemma {:induction false} OperandsTaken(bk: Books, k: nat, vs: seq<Var>, uses: map<Var, nat>, m: nat)
    requires m <= |vs| && bk.madeAt.Keys == bk.pending.Keys && forall j: nat :: (k, j) !in bk.fed
    ensures OperandsTake(bk, Operands(bk, k, vs, uses, m).0, k, vs, uses, m)
  {
    if m > 0 {
      OperandsTaken(bk, k, vs, uses, m - 1);
      OperandTakes(bk, Operands(bk, k, vs, uses, m - 1).0, k, vs, uses, m - 1);
    }
  }

  /** An operand can absorb what is pending exactly when the instructions say so. */
  lemma AbsorbableExact(insts: seq<Inst>, forms: seq<Form>, uses: map<Var, nat>, bk: Books, k: nat, m: nat)
    requires Formed(insts, forms) && CountsRight(uses, AllUses(insts)) && k < |insts| == |forms| && Tracks(insts, forms, bk, k)
    requires forms[k].OpForm? && m < |forms[k].operands|
    ensures var v := forms[k].operands[m];
            Absorbs(insts, forms, k, m) <==> First(forms[k].operands, m) && Absorbable(bk, v, SingleUse(uses, v))
  {
    var v := forms[k].operands[m];
    assert Times(uses, v) == AllUses(insts)[v];
    if AllUses(insts)[v] == 1 && LastWrite(insts, v, k).Some? {
      var j := LastWrite(insts, v, k).value;
      if TakenBetween(insts, forms, v, j, k) {
        var i: nat, n: nat :| j < i < k && Takes(insts, forms, i, n) && forms[i].operands[n] == v;
        OneReader(insts, v, i);
        assert false;
      }
      if v in bk.pending {
        SeenLasts(insts, forms, j, k);
        FreshStands(insts, forms, bk, k, bk.pending[v].seen);
      } else {
        assert !Pends(insts, forms, v, k);
      }
    } else if v in bk.pending {
      assert Pends(insts, forms, v, k);
    }
  }

  lemma FreshStands(insts: seq<Inst>, forms: seq<Form>, bk: Books, k: nat, seen: Reads)
    requires k <= |insts| == |forms| && Tracks(insts, forms, bk, k)
    ensures Fresh(bk, seen) <==> Stands(insts, seen, k)
  {
    forall i | 0 <= i < |seen| ensures Generation(bk, seen[i].0) == Writes(insts, seen[i].0, k) {
    }
  }

  lemma OperandsReads(bk: Books, k: nat, vs: seq<Var>, uses: map<Var, nat>, m: nat)
    requires bk.madeAt.Keys == bk.pending.Keys && m <= |vs|
    ensures Operands(bk, k, vs, uses, m).2 ==
            if m == 0 then []
            else Operands(bk, k, vs, uses, m - 1).2
                 + Operand(Operands(bk, k, vs, uses, m - 1).0, k, m - 1, vs[m - 1], SingleUse(uses, vs[m - 1])).2
  {
    hide Operand, SingleUse;
  }

  /** What the operands have read is what their trees read. */
  lemma {:induction false} OperandsSeen(insts: seq<Inst>, forms: seq<Form>, uses: map<Var, nat>, bk: Books, k: nat, m: nat)
    requires Formed(insts, forms) && CountsRight(uses, AllUses(insts)) && k < |insts| == |forms| && Tracks(insts, forms, bk, k)
    requires forms[k].OpForm? && m <= |forms[k].operands|
    ensures Operands(bk, k, forms[k].operands, uses, m).2 == SeenUpTo(insts, forms, k, m)
  {
    assert bk.madeAt.Keys == bk.pending.Keys;
    hide Tracks, Formed, CountsRight, Absorbs, Seen, SeenBy, Operand, Operands, AllUses, SingleUse;
    OperandsReads(bk, k, forms[k].operands, uses, m);
    if m > 0 {
      OperandsSeen(insts, forms, uses, bk, k, m - 1);
      OperandSeen(insts, forms, uses, bk, k, m - 1);
    }
  }

  lemma OperandSeen(insts: seq<Inst>, forms: seq<Form>, uses: map<Var, nat>, bk: Books, k: nat, m: nat)
    requires Formed(insts, forms) && CountsRight(uses, AllUses(insts)) && k < |insts| == |forms| && Tracks(insts, forms, bk, k)
    requires forms[k].OpForm? && m < |forms[k].operands|
    ensures var (vs, before) := (forms[k].operands, Operands(bk, k, forms[k].operands, uses, m).0);
            Operand(before, k, m, vs[m], SingleUse(uses, vs[m])).2 == SeenBy(insts, forms, k, m)
  {
    var vs := forms[k].operands;
    var before := Operands(bk, k, vs, uses, m).0;
    NothingFed(insts, forms, bk, k);
    OperandsTaken(bk, k, vs, uses, m);
    OperandTakes(bk, before, k, vs, uses, m);
    AbsorbableExact(insts, forms, uses, bk, k, m);
    hide Absorbs, Seen, SingleUse, Fresh, CountsRight, Formed;
    assert Generation(before, vs[m]) == Generation(bk, vs[m]) == Writes(insts, vs[m], k);
    if Absorbs(insts, forms, k, m) {
      assert before.pending[vs[m]] == bk.pending[vs[m]];
    }
  }

  lemma NothingFed(insts: seq<Inst>, forms: seq<Form>, bk: Books, k: nat)
    requires k <= |insts| == |forms| && Tracks(insts, forms, bk, k)
    ensures forall j: nat :: (k, j) !in bk.fed
  {
  }

  /** The books once the operands of instruction `k` are taken. */
  ghost predicate TookOperands(insts: seq<Inst>, forms: seq<Form>, bk: Books, taken: Books, k: nat)
    requires k < |insts| == |forms|
  {
    && taken.madeAt.Keys == taken.pending.Keys && taken.count == bk.count && |taken.lostAt| == |taken.overwritten|
    && (forall v {:trigger v in taken.pending} :: v in taken.pending <==> v in bk.pending && !TakenAt(insts, forms, v, k))
    && (forall v {:trigger taken.pending[v]} :: v in taken.pending ==>
          v in bk.pending && v in bk.madeAt && taken.pending[v] == bk.pending[v] && taken.madeAt[v] == bk.madeAt[v])
    && FedTracks(insts, forms, taken, k + 1)
  }

  ghost predicate TakenAt(insts: seq<Inst>, forms: seq<Form>, v: Var, k: nat)
    requires |insts| == |forms|
  {
    exists m: nat {:trigger Takes(insts, forms, k, m)} :: Takes(insts, forms, k, m) && forms[k].operands[m] == v
  }

  lemma {:induction false} HasFirst(vs: seq<Var>, v: Var, m: nat) returns (i: nat)
    requires m <= |vs| && v in vs[..m]
    ensures i < m && vs[i] == v && First(vs, i)
  {
    var j: nat :| j < m && vs[j] == v;
    if First(vs, j) {
      i := j;
    } else {
      i := HasFirst(vs, v, j);
    }
  }

  lemma TakenAtIs(insts: seq<Inst>, forms: seq<Form>, uses: map<Var, nat>, bk: Books, k: nat, v: Var)
    requires Formed(insts, forms) && CountsRight(uses, AllUses(insts)) && k < |insts| == |forms| && Tracks(insts, forms, bk, k) && forms[k].OpForm?
    ensures TakenAt(insts, forms, v, k) <==> v in forms[k].operands && Absorbable(bk, v, SingleUse(uses, v))
  {
    hide Tracks, Formed, CountsRight, Absorbs, SingleUse, Absorbable;
    var vs := forms[k].operands;
    if TakenAt(insts, forms, v, k) {
      var m: nat :| Takes(insts, forms, k, m) && vs[m] == v;
      AbsorbableExact(insts, forms, uses, bk, k, m);
    }
    if v in vs && Absorbable(bk, v, SingleUse(uses, v)) {
      TakeAll(vs);
      var m := HasFirst(vs, v, |vs|);
      AbsorbableExact(insts, forms, uses, bk, k, m);
      assert Takes(insts, forms, k, m);
    }
  }

  lemma OperandsTook(insts: seq<Inst>, forms: seq<Form>, uses: map<Var, nat>, bk: Books, k: nat)
    requires Formed(insts, forms) && CountsRight(uses, AllUses(insts)) && k < |insts| == |forms| && Tracks(insts, forms, bk, k) && forms[k].OpForm?
    ensures TookOperands(insts, forms, bk, Operands(bk, k, forms[k].operands, uses, |forms[k].operands|).0, k)
  {
    hide Formed, CountsRight, Absorbs, SingleUse, Absorbable, Operands, TakenAt, Seen, Pends;
    var vs := forms[k].operands;
    var taken := Operands(bk, k, vs, uses, |vs|).0;
    NothingFed(insts, forms, bk, k);
    OperandsTaken(bk, k, vs, uses, |vs|);
    TakeAll(vs);
    forall v ensures v in taken.pending <==> v in bk.pending && !TakenAt(insts, forms, v, k) {
      TakenAtIs(insts, forms, uses, bk, k, v);
    }
    OperandsFed(insts, forms, uses, bk, taken, k);
  }

  lemma OperandsFed(insts: seq<Inst>, forms: seq<Form>, uses: map<Var, nat>, bk: Books, taken: Books, k: nat)
    requires Formed(insts, forms) && CountsRight(uses, AllUses(insts)) && k < |insts| == |forms| && Tracks(insts, forms, bk, k) && forms[k].OpForm?
    requires OperandsTake(bk, taken, k, forms[k].operands, uses, |forms[k].operands|)
    ensures FedTracks(insts, forms, taken, k + 1)
  {
    hide Formed, CountsRight, Absorbs, SingleUse, Absorbable, Seen, Pends;
    var vs := forms[k].operands;
    forall i: nat, m: nat
      ensures (i, m) in taken.fed <==> i < k + 1 && Takes(insts, forms, i, m)
      ensures (i, m) in taken.fed && Takes(insts, forms, i, m) ==> taken.fed[(i, m)] == Taken(insts, forms, i, m)
    {
      assert (i, m) in bk.fed <==> i < k && Takes(insts, forms, i, m);
      if i == k && m < |vs| {
        AbsorbableExact(insts, forms, uses, bk, k, m);
        if Takes(insts, forms, k, m) {
          AbsorbedIs(insts, forms, bk, k, vs[m], uses);
        }
      }
    }
  }

  lemma AbsorbedIs(insts: seq<Inst>, forms: seq<Form>, bk: Books, k: nat, v: Var, uses: map<Var, nat>)
    requires k < |insts| == |forms| && Tracks(insts, forms, bk, k) && Absorbable(bk, v, SingleUse(uses, v))
    ensures v in bk.pending && Some(bk.madeAt[v]) == LastWrite(insts, v, k)
  {
    assert bk.pending[v] == bk.pending[v];
  }

  lemma {:induction false} RedefineWrites(bk: Books, defs: seq<Var>, v: Var)
    requires bk.madeAt.Keys == bk.pending.Keys
    ensures Generation(RedefineAll(bk, defs), v) == Generation(bk, v) + multiset(defs)[v]
  {
    if defs != [] {
      RedefineWrites(bk, defs[..|defs| - 1], v);
      assert defs == defs[..|defs| - 1] + [defs[|defs| - 1]];
    }
  }

  lemma DefineTracks(block: BlockId, insts: seq<Inst>, forms: seq<Form>, uses: map<Var, nat>, bk: Books, k: nat)
    requires Formed(insts, forms) && CountsRight(uses, AllUses(insts)) && k < |insts| == |forms| && Tracks(insts, forms, bk, k)
    ensures var (taken, made) := Define(bk, block, k, insts[k], forms[k], uses);
            TookOperands(insts, forms, bk, taken, k) && made.seen == Seen(insts, forms, k)
  {
    hide Formed, CountsRight, Absorbs, Pends;
    match forms[k]
    case OpForm(_, vs) =>
      OperandsTook(insts, forms, uses, bk, k);
      OperandsSeen(insts, forms, uses, bk, k, |vs|);
    case ConstForm(_) =>
    case NoForm =>
      var us := insts[k].uses;
      assert forall i :: 0 <= i < |us| ==> Generation(bk, us[i]) == Writes(insts, us[i], k);
      assert ReadsOf(bk, us) == Seen(insts, forms, k);
  }

  /** What pends after instruction `k`. */
  lemma PendsNext(insts: seq<Inst>, forms: seq<Form>, v: Var, k: nat)
    requires k < |insts| == |forms|
    ensures Pends(insts, forms, v, k + 1) <==>
            if v in insts[k].defs then v in RecordedDefs(insts[k], forms[k])
            else Pends(insts, forms, v, k) && !TakenAt(insts, forms, v, k)
  {
    hide Takes;
    if v !in insts[k].defs && LastWrite(insts, v, k).Some? {
      var j := LastWrite(insts, v, k).value;
      if TakenBetween(insts, forms, v, j, k) {
        assert TakenBetween(insts, forms, v, j, k + 1);
      }
      if TakenAt(insts, forms, v, k) {
        assert TakenBetween(insts, forms, v, j, k + 1);
      }
    }
  }

  /** One instruction keeps the books as the instructions tell them. */
  lemma WalkTracks(block: BlockId, insts: seq<Inst>, forms: seq<Form>, uses: map<Var, nat>, bk: Books, k: nat)
    requires Formed(insts, forms) && CountsRight(uses, AllUses(insts)) && k < |insts| == |forms| && Tracks(insts, forms, bk, k)
    ensures Tracks(insts, forms, Walk(bk, block, k, insts[k], forms[k], uses), k + 1)
  {
    hide Formed, CountsRight, Absorbs, Pends, TakenAt, FedTracks, Seen, Define;
    var inst, form := insts[k], forms[k];
    var (taken, made) := Define(bk, block, k, inst, form, uses);
    DefineTracks(block, insts, forms, uses, bk, k);
    var dropped, recorded := RedefineAll(taken, inst.defs), RecordedDefs(inst, form);
    RedefineKeeps(taken, inst.defs);
    RecordKeeps(dropped, k, recorded, made);
    var after := Walk(bk, block, k, inst, form, uses);
    assert after == RecordAll(dropped, k, recorded, made);
    forall v ensures Generation(after, v) == Writes(insts, v, k + 1) {
      RedefineWrites(taken, inst.defs, v);
      assert Generation(after, v) == Generation(dropped, v) && Generation(taken, v) == Generation(bk, v) == Writes(insts, v, k);
    }
    forall v
      ensures v in after.pending <==> Pends(insts, forms, v, k + 1)
      ensures v in after.pending ==>
                Some(after.madeAt[v]) == LastWrite(insts, v, k + 1) && after.pending[v].seen == Seen(insts, forms, after.madeAt[v])
    {
      PendsNext(insts, forms, v, k);
      assert forall d :: d in recorded ==> d in inst.defs;
      assert v in bk.pending <==> Pends(insts, forms, v, k);
      if v in after.pending && v !in recorded {
        assert after.pending[v] == dropped.pending[v] == taken.pending[v] == bk.pending[v];
      }
    }
    FedSame(insts, forms, taken, after, k + 1);
  }

  lemma FedSame(insts: seq<Inst>, forms: seq<Form>, bk: Books, after: Books, k: nat)
    requires k <= |insts| == |forms| && FedTracks(insts, forms, bk, k) && after.fed == bk.fed
    ensures FedTracks(insts, forms, after, k)
  {
  }

  lemma {:induction false} BooksTrack(block: BlockId, insts: seq<Inst>, forms: seq<Form>, uses: map<Var, nat>, k: nat)
    requires Formed(insts, forms) && CountsRight(uses, AllUses(insts)) && k <= |insts| == |forms|
    ensures Tracks(insts, forms, BooksAt(block, insts, forms, uses, k), k)
  {
    hide Formed, CountsRight, Walk, Absorbs;
    if k > 0 {
      hide Tracks;
      BooksTrack(block, insts, forms, uses, k - 1);
      WalkTracks(block, insts, forms, uses, BooksAt(block, insts, forms, uses, k - 1), k - 1);
    }
  }

  /** The tree the absorptions rebuild is the one the instructions tell. */
  lemma {:induction false} RebuildIsTree(block: BlockId, insts: seq<Inst>, forms: seq<Form>, bk: Books, at: nat)
    requires |insts| == |forms| && FedTracks(insts, forms, bk, |insts|) && at < |insts|
    ensures Rebuild(block, forms, bk.fed, at) == Tree(block, insts, forms, at)
    decreases at
  {
    hide FedTracks, Absorbs;
    if forms[at].OpForm? {
      var vs := forms[at].operands;
      var es, ts := Rebuild(block, forms, bk.fed, at).operands, Tree(block, insts, forms, at).operands;
      forall m | 0 <= m < |vs| ensures es[m] == ts[m] {
        FedAt(insts, forms, bk, at, m);
        if Absorbs(insts, forms, at, m) {
          RebuildIsTree(block, insts, forms, bk, LastWrite(insts, vs[m], at).value);
        }
      }
      assert es == ts;
    }
  }

  lemma FedAt(insts: seq<Inst>, forms: seq<Form>, bk: Books, k: nat, m: nat)
    requires |insts| == |forms| && FedTracks(insts, forms, bk, |insts|)
    requires k < |insts| && forms[k].OpForm? && m < |forms[k].operands|
    ensures (k, m) in bk.fed <==> Absorbs(insts, forms, k, m)
    ensures Absorbs(insts, forms, k, m) ==>
              LastWrite(insts, forms[k].operands[m], k).Some?
              && bk.fed[(k, m)] == Def(LastWrite(insts, forms[k].operands[m], k).value, forms[k].operands[m])
  {
    assert Takes(insts, forms, k, m) <==> Absorbs(insts, forms, k, m);
  }

  ghost predicate IsTaken(insts: seq<Inst>, forms: seq<Form>, d: Def)
    requires |insts| == |forms|
  {
    exists k: nat, m: nat {:trigger Takes(insts, forms, k, m)} :: Takes(insts, forms, k, m) && Taken(insts, forms, k, m) == d
  }

  ghost predicate IsRoot(d: Def, roots: seq<(Var, Expr)>, ats: seq<nat>) {
    |roots| == |ats| && exists i :: 0 <= i < |roots| && d == Def(ats[i], roots[i].0)
  }

  /** What an operand takes in has been recorded, and no other operand takes it in. */
  lemma TakenRecorded(insts: seq<Inst>, forms: seq<Form>, k: nat, m: nat)
    requires |insts| == |forms| && Takes(insts, forms, k, m)
    ensures Taken(insts, forms, k, m) in RecordedBy(insts, forms, |insts|) && Taken(insts, forms, k, m).at < k < |insts|
  {
  }

  lemma TakenOnce(insts: seq<Inst>, forms: seq<Form>, k: nat, m: nat, k': nat, m': nat)
    requires Formed(insts, forms) && Takes(insts, forms, k, m) && Takes(insts, forms, k', m')
    requires Taken(insts, forms, k, m) == Taken(insts, forms, k', m')
    ensures k == k' && m == m'
  {
    var v := forms[k].operands[m];
    OneReader(insts, v, k);
    assert v in insts[k].uses && v in insts[k'].uses;
  }

  /** Where every recorded definition goes: the recovered roots are the recorded definitions no operand takes in, and the
      tree of each is the one the instructions tell. */
  lemma RootsExact(block: BlockId, insts: seq<Inst>, forms: seq<Form>, uses: map<Var, nat>, roots: seq<(Var, Expr)>, ats: seq<nat>)
    requires Formed(insts, forms) && IsRecovery(block, insts, forms, uses, roots, ats)
    ensures forall i :: 0 <= i < |roots| ==> ats[i] < |insts| && roots[i].1 == Tree(block, insts, forms, ats[i])
    ensures forall d :: IsRoot(d, roots, ats) <==> d in RecordedBy(insts, forms, |insts|) && !IsTaken(insts, forms, d)
  {
    var bk := BooksAt(block, insts, forms, uses, |insts|);
    BooksKept(block, insts, forms, uses, |insts|);
    BooksTrack(block, insts, forms, uses, |insts|);
    RootsAre(block, insts, forms, uses, roots, ats, bk);
    hide Formed, IsRecovery, Kept, Tracks, Accounted, TreesRight, FedTracks;
    forall i | 0 <= i < |roots| ensures ats[i] < |insts| && roots[i].1 == Tree(block, insts, forms, ats[i]) {
      assert Def(ats[i], roots[i].0) in Held(bk) + Lost(bk);
      RebuildIsTree(block, insts, forms, bk, ats[i]);
    }
    forall d ensures IsRoot(d, roots, ats) <==> d in RecordedBy(insts, forms, |insts|) && !IsTaken(insts, forms, d) {
      FedIsTaken(insts, forms, bk, d);
    }
  }

  /** The roots are what is held or lost; the rest of what is recorded is fed. */
  lemma RootsAre(block: BlockId, insts: seq<Inst>, forms: seq<Form>, uses: map<Var, nat>, roots: seq<(Var, Expr)>, ats: seq<nat>, bk: Books)
    requires IsRecovery(block, insts, forms, uses, roots, ats) && bk == BooksAt(block, insts, forms, uses, |insts|)
    requires Kept(block, forms, uses, bk, |insts|, 0, RecordedBy(insts, forms, |insts|)) && Tracks(insts, forms, bk, |insts|)
    ensures |roots| == |ats| && |insts| == |forms| && |bk.lostAt| == |bk.overwritten| && FedTracks(insts, forms, bk, |insts|)
    ensures forall i :: 0 <= i < |roots| ==>
              && Def(ats[i], roots[i].0) in Held(bk) + Lost(bk) && ats[i] < |insts|
              && roots[i].1 == Rebuild(block, forms, bk.fed, ats[i])
    ensures forall d :: IsRoot(d, roots, ats) <==> d in Held(bk) + Lost(bk)
    ensures Held(bk) + Lost(bk) + Fed(bk) == RecordedBy(insts, forms, |insts|) && Held(bk) + Lost(bk) !! Fed(bk)
  {
    hide BooksAt, Tracks, FedTracks, FedRight, InOrder, Rebuild, RecordedBy, Kept, CountsRight, TreesRight;
    assert |insts| == |forms|;
    TracksFed(insts, forms, bk, |insts|);
    KeptParts(block, forms, uses, bk, |insts|, RecordedBy(insts, forms, |insts|));
    forall i | 0 <= i < |roots|
      ensures Def(ats[i], roots[i].0) in Held(bk) + Lost(bk) && ats[i] < |insts|
      ensures roots[i].1 == Rebuild(block, forms, bk.fed, ats[i])
    {
      assert (Def(ats[i], roots[i].0), roots[i].1) in Made(roots, ats);
      RootKept(block, forms, bk, |insts|, Def(ats[i], roots[i].0), roots[i].1);
    }
    forall d | d in Held(bk) + Lost(bk) ensures IsRoot(d, roots, ats) {
      var e := KeptRoot(bk, d);
      assert (d, e) in Made(roots, ats);
    }
  }

  lemma KeptParts(block: BlockId, forms: seq<Form>, uses: map<Var, nat>, bk: Books, k: nat, recorded: set<Def>)
    requires Kept(block, forms, uses, bk, k, 0, recorded)
    ensures TreesRight(block, forms, bk, k) && bk.madeAt.Keys == bk.pending.Keys && |bk.lostAt| == |bk.overwritten|
    ensures Held(bk) + Lost(bk) + Fed(bk) == recorded && Held(bk) + Lost(bk) !! Fed(bk)
  {
    hide TreesRight, InOrder, FedRight, Held, Lost, Fed;
  }

  lemma TracksFed(insts: seq<Inst>, forms: seq<Form>, bk: Books, k: nat)
    requires k <= |insts| == |forms| && Tracks(insts, forms, bk, k)
    ensures FedTracks(insts, forms, bk, k)
  {
  }

  lemma FedIsTaken(insts: seq<Inst>, forms: seq<Form>, bk: Books, d: Def)
    requires |insts| == |forms| && FedTracks(insts, forms, bk, |insts|)
    ensures d in Fed(bk) <==> IsTaken(insts, forms, d)
  {
    hide Absorbs;
    if d in Fed(bk) {
      var p :| p in bk.fed && bk.fed[p] == d;
      var (k, m) := p;
      assert (k, m) in bk.fed && Takes(insts, forms, k, m);
    }
    if IsTaken(insts, forms, d) {
      var k: nat, m: nat :| Takes(insts, forms, k, m) && Taken(insts, forms, k, m) == d;
      assert (k, m) in bk.fed && bk.fed[(k, m)] == d;
    }
  }

  /** Definition `d` sits in the tree of `r`: it is `r`, or an operand of an instruction that records a definition took it
      in, and that definition sits in the tree of `r`. */
  ghost predicate Inside(insts: seq<Inst>, forms: seq<Form>, d: Def, r: Def)
    requires |insts| == |forms|
    decreases |insts| - d.at
  {
    || d == r
    || exists k: nat, m: nat {:trigger Takes(insts, forms, k, m)} ::
         && d.at < k < |insts| && Takes(insts, forms, k, m) && Taken(insts, forms, k, m) == d && insts[k].defs != []
         && Inside(insts, forms, Def(k, insts[k].defs[0]), r)
  }

  ghost predicate PartOf(e: Expr, t: Expr) {
    e == t || (t.Op? && exists i :: 0 <= i < |t.operands| && PartOf(e, t.operands[i]))
  }

  lemma {:induction false} PartOfTrans(a: Expr, b: Expr, c: Expr)
    requires PartOf(a, b) && PartOf(b, c)
    ensures PartOf(a, c)
    decreases c
  {
    if b != c {
      var i :| 0 <= i < |c.operands| && PartOf(b, c.operands[i]);
      PartOfTrans(a, b, c.operands[i]);
    }
  }

  lemma TakenPart(block: BlockId, insts: seq<Inst>, forms: seq<Form>, k: nat, m: nat)
    requires |insts| == |forms| && Takes(insts, forms, k, m)
    ensures PartOf(Tree(block, insts, forms, Taken(insts, forms, k, m).at), Tree(block, insts, forms, k))
  {
    var t := Tree(block, insts, forms, k);
    assert t.operands[m] == Tree(block, insts, forms, Taken(insts, forms, k, m).at);
    assert PartOf(t.operands[m], t.operands[m]);
  }

  /** A definition that sits in a tree has its own tree as a part of that one. */
  lemma {:induction false} InsideIsPart(block: BlockId, insts: seq<Inst>, forms: seq<Form>, d: Def, r: Def)
    requires |insts| == |forms| && Inside(insts, forms, d, r) && d.at < |insts|
    ensures r.at < |insts| && PartOf(Tree(block, insts, forms, d.at), Tree(block, insts, forms, r.at))
    decreases |insts| - d.at
  {
    hide Takes;
    if d != r {
      var k: nat, m: nat :| d.at < k < |insts| && Takes(insts, forms, k, m) && Taken(insts, forms, k, m) == d && insts[k].defs != []
                            && Inside(insts, forms, Def(k, insts[k].defs[0]), r);
      InsideIsPart(block, insts, forms, Def(k, insts[k].defs[0]), r);
      TakenPart(block, insts, forms, k, m);
      PartOfTrans(Tree(block, insts, forms, d.at), Tree(block, insts, forms, k), Tree(block, insts, forms, r.at));
    }
  }

  /** No definition sits in the trees of two roots. */
  lemma {:induction false} InsideOne(insts: seq<Inst>, forms: seq<Form>, d: Def, r: Def, r': Def)
    requires |insts| == |forms| && Formed(insts, forms) && Inside(insts, forms, d, r) && Inside(insts, forms, d, r')
    requires !IsTaken(insts, forms, r) && !IsTaken(insts, forms, r')
    ensures r == r'
    decreases |insts| - d.at
  {
    hide Takes, Formed;
    if d != r && d != r' {
      var k: nat, m: nat :| d.at < k < |insts| && Takes(insts, forms, k, m) && Taken(insts, forms, k, m) == d && insts[k].defs != []
                            && Inside(insts, forms, Def(k, insts[k].defs[0]), r);
      var k': nat, m': nat :| d.at < k' < |insts| && Takes(insts, forms, k', m') && Taken(insts, forms, k', m') == d
                              && insts[k'].defs != [] && Inside(insts, forms, Def(k', insts[k'].defs[0]), r');
      TakenOnce(insts, forms, k, m, k', m');
      InsideOne(insts, forms, Def(k, insts[k].defs[0]), r, r');
    }
  }

  /** No operand of an instruction that defines nothing takes a definition in: such an instruction drops its tree. */
  ghost predicate NothingDropped(insts: seq<Inst>, forms: seq<Form>)
    requires |insts| == |forms|
  {
    forall k: nat, m: nat {:trigger Takes(insts, forms, k, m)} :: Takes(insts, forms, k, m) ==> insts[k].defs != []
  }

  ghost predicate InRoot(insts: seq<Inst>, forms: seq<Form>, d: Def, roots: seq<(Var, Expr)>, ats: seq<nat>)
    requires |insts| == |forms| && |roots| == |ats|
  {
    exists i :: 0 <= i < |roots| && Inside(insts, forms, d, Def(ats[i], roots[i].0))
  }

  /** When nothing is dropped, following what takes a definition in leads to a root. */
  lemma {:induction false} LeadsToRoot(insts: seq<Inst>, forms: seq<Form>, roots: seq<(Var, Expr)>, ats: seq<nat>, d: Def)
    requires |insts| == |forms| && |roots| == |ats| && NothingDropped(insts, forms) && d in RecordedBy(insts, forms, |insts|)
    requires forall x :: IsRoot(x, roots, ats) <==> x in RecordedBy(insts, forms, |insts|) && !IsTaken(insts, forms, x)
    ensures InRoot(insts, forms, d, roots, ats)
    decreases |insts| - d.at
  {
    hide Takes, Inside;
    if IsTaken(insts, forms, d) {
      var k: nat, m: nat :| Takes(insts, forms, k, m) && Taken(insts, forms, k, m) == d;
      TakenRecorded(insts, forms, k, m);
      var host := Def(k, insts[k].defs[0]);
      TakerRecords(insts, forms, k, m);
      LeadsToRoot(insts, forms, roots, ats, host);
      var i :| 0 <= i < |roots| && Inside(insts, forms, host, Def(ats[i], roots[i].0));
      InsideNext(insts, forms, k, m, Def(ats[i], roots[i].0));
    } else {
      assert IsRoot(d, roots, ats);
      var i :| 0 <= i < |roots| && d == Def(ats[i], roots[i].0);
      InsideSelf(insts, forms, d);
    }
  }

  lemma InsideSelf(insts: seq<Inst>, forms: seq<Form>, d: Def)
    requires |insts| == |forms|
    ensures Inside(insts, forms, d, d)
  {
  }

  lemma InsideNext(insts: seq<Inst>, forms: seq<Form>, k: nat, m: nat, r: Def)
    requires |insts| == |forms| && Takes(insts, forms, k, m) && insts[k].defs != []
    requires Inside(insts, forms, Def(k, insts[k].defs[0]), r)
    ensures Inside(insts, forms, Taken(insts, forms, k, m), r)
  {
  }

  lemma TakerRecords(insts: seq<Inst>, forms: seq<Form>, k: nat, m: nat)
    requires |insts| == |forms| && Takes(insts, forms, k, m) && insts[k].defs != []
    ensures Def(k, insts[k].defs[0]) in RecordedBy(insts, forms, |insts|)
  {
  }

  /** What an instruction without definitions takes in is in no root's tree. */
  lemma DroppedNowhere(insts: seq<Inst>, forms: seq<Form>, k: nat, m: nat, r: Def)
    requires |insts| == |forms| && Formed(insts, forms) && Takes(insts, forms, k, m) && insts[k].defs == [] && !IsTaken(insts, forms, r)
    ensures !Inside(insts, forms, Taken(insts, forms, k, m), r)
  {
    hide Formed, Takes;
    var d := Taken(insts, forms, k, m);
    if Inside(insts, forms, d, r) && d != r {
      var k': nat, m': nat :| d.at < k' < |insts| && Takes(insts, forms, k', m') && Taken(insts, forms, k', m') == d
                              && insts[k'].defs != [] && Inside(insts, forms, Def(k', insts[k'].defs[0]), r);
      TakenOnce(insts, forms, k, m, k', m');
    }
  }

  /** Every recorded definition sits in some root's tree exactly when no instruction without definitions takes one in. */
  lemma ConservedExact(block: BlockId, insts: seq<Inst>, forms: seq<Form>, uses: map<Var, nat>, roots: seq<(Var, Expr)>, ats: seq<nat>)
    requires Formed(insts, forms) && IsRecovery(block, insts, forms, uses, roots, ats)
    ensures |insts| == |forms| && |roots| == |ats|
    ensures NothingDropped(insts, forms) <==>
            forall d :: d in RecordedBy(insts, forms, |insts|) ==> InRoot(insts, forms, d, roots, ats)
  {
    RootsExact(block, insts, forms, uses, roots, ats);
    assert |insts| == |forms| && |roots| == |ats|;
    hide Formed, IsRecovery, Takes, Inside, IsTaken;
    if NothingDropped(insts, forms) {
      forall d | d in RecordedBy(insts, forms, |insts|) ensures InRoot(insts, forms, d, roots, ats) {
        LeadsToRoot(insts, forms, roots, ats, d);
      }
    } else {
      var k: nat, m: nat :| Takes(insts, forms, k, m) && insts[k].defs == [];
      TakenRecorded(insts, forms, k, m);
      forall i | 0 <= i < |roots| ensures !Inside(insts, forms, Taken(insts, forms, k, m), Def(ats[i], roots[i].0)) {
        assert IsRoot(Def(ats[i], roots[i].0), roots, ats);
        DroppedNowhere(insts, forms, k, m, Def(ats[i], roots[i].0));
      }
    }
  }

  /** When every instruction with operands defines something, each recorded definition is one root, or just one operand of
      an instruction that records a definition takes it in; and it sits in the tree of exactly one root. */
  lemma EachConserved(block: BlockId, insts: seq<Inst>, forms: seq<Form>, uses: map<Var, nat>, roots: seq<(Var, Expr)>, ats: seq<nat>, d: Def)
    requires Formed(insts, forms) && IsRecovery(block, insts, forms, uses, roots, ats) && d in RecordedBy(insts, forms, |insts|)
    requires forall k :: 0 <= k < |insts| && forms[k].OpForm? && forms[k].operands != [] ==> insts[k].defs != []
    ensures |roots| == |ats| && (IsRoot(d, roots, ats) <==> !IsTaken(insts, forms, d))
    ensures forall k: nat, m: nat :: Takes(insts, forms, k, m) && Taken(insts, forms, k, m) == d ==>
              insts[k].defs != [] && Def(k, insts[k].defs[0]) in RecordedBy(insts, forms, |insts|)
    ensures exists i :: 0 <= i < |roots| && Inside(insts, forms, d, Def(ats[i], roots[i].0))
                        && forall j :: 0 <= j < |roots| && Inside(insts, forms, d, Def(ats[j], roots[j].0)) ==> j == i
  {
    RootsExact(block, insts, forms, uses, roots, ats);
    assert |insts| == |forms| && Ordered(roots, ats);
    forall k: nat, m: nat | Takes(insts, forms, k, m)
      ensures insts[k].defs != [] && Def(k, insts[k].defs[0]) in RecordedBy(insts, forms, |insts|)
    {
      TakerRecords(insts, forms, k, m);
    }
    hide Formed, IsRecovery, Takes, Inside, IsTaken;
    LeadsToRoot(insts, forms, roots, ats, d);
    var i :| 0 <= i < |roots| && Inside(insts, forms, d, Def(ats[i], roots[i].0));
    forall j | 0 <= j < |roots| && Inside(insts, forms, d, Def(ats[j], roots[j].0)) ensures j == i {
      assert IsRoot(Def(ats[i], roots[i].0), roots, ats) && IsRoot(Def(ats[j], roots[j].0), roots, ats);
      InsideOne(insts, forms, d, Def(ats[i], roots[i].0), Def(ats[j], roots[j].0));
    }
  }

  function Product(): Inst { Inst(1, [5, 6], [7], false, false, true, NoTransfer) }

  function Comparison(): Inst { Inst(2, [7], [], false, false, true, NoTransfer) }

  function Compared(): seq<Inst> { [Product(), Comparison()] }

  function ComparedForms(): seq<Form> { [OpForm(1, [5, 6]), OpForm(2, [7])] }

  lemma ComparedUses()
    ensures AllUses(Compared()) == multiset{5, 6, 7}
  {
    var insts := Compared();
    assert insts[..1] == [Product()] && [Product()][..0] == [];
    assert AllUses([Product()]) == AllUses([]) + multiset([5, 6]);
    assert AllUses(insts) == AllUses(insts[..1]) + multiset([7]);
  }

  /** The product reads nothing the block defines. */
  lemma ProductLasts()
    ensures Lasts(Compared(), ComparedForms(), 0, 1)
  {
    var insts, forms := Compared(), ComparedForms();
    hide AllUses;
    assert LastWrite(insts, 5, 0) == None && LastWrite(insts, 6, 0) == None;
    assert !Absorbs(insts, forms, 0, 0) && !Absorbs(insts, forms, 0, 1);
    assert Unwritten(insts, 5, 0, 1) && Unwritten(insts, 6, 0, 1);
  }

  lemma ComparedTakes()
    ensures Formed(Compared(), ComparedForms()) && Takes(Compared(), ComparedForms(), 1, 0)
    ensures Taken(Compared(), ComparedForms(), 1, 0) == Def(0, 7)
  {
    var insts, forms := Compared(), ComparedForms();
    ComparedUses();
    ProductLasts();
    hide AllUses, Lasts;
    assert LastWrite(insts, 7, 1) == Some(0);
    assert RecordedDefs(insts[0], forms[0]) == [7];
  }

  lemma HasRoot(roots: seq<(Var, Expr)>, ats: seq<nat>)
    requires |roots| == |ats|
    ensures roots != [] ==> exists d :: IsRoot(d, roots, ats)
  {
    if roots != [] {
      assert IsRoot(Def(ats[0], roots[0].0), roots, ats);
    }
  }

  lemma OnlyProduct(d: Def)
    ensures d in RecordedBy(Compared(), ComparedForms(), 2) <==> d == Def(0, 7)
  {
    assert d in RecordedBy(Compared(), ComparedForms(), 2) <==>
           d.at < 2 && d.v in RecordedDefs(Compared()[d.at], ComparedForms()[d.at]);
  }

  /** The product is recorded, the comparison that defines nothing takes it in, and the block recovers no tree at all. */
  lemma ComparisonDropsProduct(uses: map<Var, nat>, roots: seq<(Var, Expr)>, ats: seq<nat>)
    requires IsRecovery(0, Compared(), ComparedForms(), uses, roots, ats)
    ensures Product().Ok() && Comparison().Ok() && Formed(Compared(), ComparedForms())
    ensures Def(0, 7) in RecordedBy(Compared(), ComparedForms(), 2) && roots == []
  {
    var insts, forms := Compared(), ComparedForms();
    assert |roots| == |ats|;
    ComparedTakes();
    OnlyProduct(Def(0, 7));
    RootsExact(0, insts, forms, uses, roots, ats);
    hide Takes, IsRecovery, RecordedBy;
    forall d ensures !IsRoot(d, roots, ats) {
      OnlyProduct(d);
    }
    HasRoot(roots, ats);
  }
}
