/** What a recovery returns, told in the block's instructions and forms: which trees are roots, in which order, and when a
    definition becomes part of its reader. */
module ExpressionRoots {
  import opened Wrappers
  import opened Program
  import opened Expressions
  import opened ExpressionAccounting
  import opened ExpressionRecovery
  import opened ExpressionConservation

  /** Instruction `k` reads `v`, once, and no other instruction of the block does. */
  predicate OnlyRead(insts: seq<Inst>, v: Var, k: nat) {
    k < |insts| && multiset(insts[k].uses)[v] == 1 && forall j :: 0 <= j < |insts| && j != k ==> v !in insts[j].uses
  }

  lemma {:induction false} NoReadExact(insts: seq<Inst>, v: Var)
    ensures AllUses(insts)[v] == 0 <==> forall j :: 0 <= j < |insts| ==> v !in insts[j].uses
  {
    if insts != [] {
      var n := |insts| - 1;
      NoReadExact(insts[..n], v);
      assert v in multiset(insts[n].uses) <==> v in insts[n].uses;
      assert (forall j :: 0 <= j < n ==> v !in insts[j].uses) <==> forall j :: 0 <= j < n ==> v !in insts[..n][j].uses;
    }
  }

  lemma LastUses(insts: seq<Inst>, v: Var)
    requires insts != []
    ensures AllUses(insts)[v] == AllUses(insts[..|insts| - 1])[v] + multiset(insts[|insts| - 1].uses)[v]
    ensures multiset(insts[|insts| - 1].uses)[v] == 0 <==> v !in insts[|insts| - 1].uses
  {
    assert v in multiset(insts[|insts| - 1].uses) <==> v in insts[|insts| - 1].uses;
  }

  lemma {:induction false} OnlyReadCounts(insts: seq<Inst>, v: Var, k: nat)
    requires OnlyRead(insts, v, k)
    ensures AllUses(insts)[v] == 1
  {
    var n := |insts| - 1;
    LastUses(insts, v);
    if k == n {
      NoReadExact(insts[..n], v);
    } else {
      OnlyReadCounts(insts[..n], v, k);
    }
  }

  lemma {:induction false} OneReadFound(insts: seq<Inst>, v: Var) returns (k: nat)
    requires AllUses(insts)[v] == 1
    ensures OnlyRead(insts, v, k)
  {
    var n := |insts| - 1;
    LastUses(insts, v);
    if v in insts[n].uses {
      k := n;
      NoReadExact(insts[..n], v);
      assert forall j :: 0 <= j < n ==> insts[..n][j] == insts[j];
    } else {
      k := OneReadFound(insts[..n], v);
      assert forall j :: 0 <= j < n ==> insts[..n][j] == insts[j];
    }
  }

  /** An instruction without a form makes a definition of each variable it writes; any other, of the first alone. */
  predicate Makes(insts: seq<Inst>, forms: seq<Form>, k: nat, v: Var)
    requires |insts| == |forms|
  {
    k < |insts| && v in insts[k].defs && (forms[k].NoForm? || v == insts[k].defs[0])
  }

  /** The top of the tree of instruction `k`. */
  predicate Heads(block: BlockId, forms: seq<Form>, k: nat, e: Expr)
    requires k < |forms|
  {
    match forms[k]
    case ConstForm(c) => e == Constant(c)
    case NoForm => e == Sealed(block, k)
    case OpForm(op, vs) => e.Op? && e.operator == op && |e.operands| == |vs|
  }

  /** No operand of an instruction after `k` is `v`. */
  predicate NotNamedAfter(forms: seq<Form>, v: Var, k: nat) {
    forall j :: k < j < |forms| && forms[j].OpForm? ==> v !in forms[j].operands
  }

  /** No later operand names the variable, or the block does not read it just once. */
  ghost predicate Unclaimed(insts: seq<Inst>, forms: seq<Form>, k: nat, v: Var) {
    (forall j :: !OnlyRead(insts, v, j)) || NotNamedAfter(forms, v, k)
  }

  /** The roots come by variable and, for one variable, by definition. Each is a definition its instruction makes, with a
      tree that begins as the instruction's form says. A definition no later operand names, or whose variable is not read
      just once, is a root. */
  lemma RootsFollowBlock(block: BlockId, insts: seq<Inst>, forms: seq<Form>, uses: map<Var, nat>, roots: seq<(Var, Expr)>, ats: seq<nat>)
    requires Formed(insts, forms) && IsRecovery(block, insts, forms, uses, roots, ats)
    ensures |insts| == |forms| && |roots| == |ats|
    ensures forall i, j :: 0 <= i < j < |roots| ==> roots[i].0 < roots[j].0 || (roots[i].0 == roots[j].0 && ats[i] < ats[j])
    ensures forall i :: 0 <= i < |roots| ==> Makes(insts, forms, ats[i], roots[i].0) && Heads(block, forms, ats[i], roots[i].1)
    ensures forall k, v :: Makes(insts, forms, k, v) && Unclaimed(insts, forms, k, v) ==>
              exists i :: 0 <= i < |roots| && roots[i].0 == v && ats[i] == k
  {
    RootsExact(block, insts, forms, uses, roots, ats);
    assert |insts| == |forms| && Ordered(roots, ats);
    forall i | 0 <= i < |roots| ensures Makes(insts, forms, ats[i], roots[i].0) && Heads(block, forms, ats[i], roots[i].1) {
      assert IsRoot(Def(ats[i], roots[i].0), roots, ats);
    }
    hide Formed, IsRecovery, Ordered, RecordedBy;
    forall k, v | Makes(insts, forms, k, v) && Unclaimed(insts, forms, k, v)
      ensures exists i :: 0 <= i < |roots| && roots[i].0 == v && ats[i] == k
    {
      StaysRoot(insts, forms, k, v);
      assert IsRoot(Def(k, v), roots, ats);
    }
  }

  lemma StaysRoot(insts: seq<Inst>, forms: seq<Form>, k: nat, v: Var)
    requires |insts| == |forms| && Makes(insts, forms, k, v)
    requires Unclaimed(insts, forms, k, v)
    ensures Def(k, v) in RecordedBy(insts, forms, |insts|) && !IsTaken(insts, forms, Def(k, v))
  {
    forall j: nat, m: nat | Takes(insts, forms, j, m) ensures Taken(insts, forms, j, m) != Def(k, v) {
      if forms[j].operands[m] == v {
        var reader := OneReadFound(insts, v);
      }
    }
  }

  /** The tree of an instruction none of whose operands has been written in the block. */
  function Plain(block: BlockId, forms: seq<Form>, j: nat): Expr
    requires j < |forms|
  {
    match forms[j]
    case ConstForm(c) => Constant(c)
    case NoForm => Sealed(block, j)
    case OpForm(op, vs) => Op(op, seq(|vs|, m requires 0 <= m < |vs| => Leaf(vs[m])))
  }

  /** Instruction `j` makes `v`, which is next read by operand `m` of instruction `k` and by nothing else, and reads only
      what the block has not written by then. */
  ghost predicate FeedsOnce(insts: seq<Inst>, forms: seq<Form>, j: nat, k: nat, m: nat)
    requires |insts| == |forms|
  {
    && j < k < |insts| && forms[k].OpForm? && m < |forms[k].operands|
    && var v := forms[k].operands[m];
       && Makes(insts, forms, j, v) && OnlyRead(insts, v, k) && v !in forms[k].operands[..m]
       && (forall i :: j < i < k ==> v !in insts[i].defs)
       && forall u, i :: u in insts[j].uses && 0 <= i < k ==> u !in insts[i].defs
  }

  lemma FeedsAbsorbs(block: BlockId, insts: seq<Inst>, forms: seq<Form>, j: nat, k: nat, m: nat)
    requires Formed(insts, forms) && FeedsOnce(insts, forms, j, k, m)
    ensures Absorbs(insts, forms, k, m) && LastWrite(insts, forms[k].operands[m], k) == Some(j)
    ensures Tree(block, insts, forms, j) == Plain(block, forms, j)
  {
    hide AllUses;
    var v := forms[k].operands[m];
    OnlyReadCounts(insts, v, k);
    assert LastWrite(insts, v, k) == Some(j);
    assert v in RecordedDefs(insts[j], forms[j]);
    if forms[j].NoForm? {
      forall i | 0 <= i < |insts[j].uses| ensures Unwritten(insts, insts[j].uses[i], j, k) {
        assert insts[j].uses[i] in insts[j].uses;
      }
    }
    if forms[j].OpForm? {
      var vs := forms[j].operands;
      forall n | 0 <= n < |vs| ensures !Absorbs(insts, forms, j, n) && OperandLasts(insts, forms, j, n, vs[n], k) {
        assert vs[n] in insts[j].uses;
        assert LastWrite(insts, vs[n], j) == None;
      }
      assert Tree(block, insts, forms, j).operands == Plain(block, forms, j).operands;
    }
    assert Lasts(insts, forms, j, k);
  }

  /** Such a definition is no root: it becomes operand `m` of the tree of its reader. */
  lemma FedIntoReader(block: BlockId, insts: seq<Inst>, forms: seq<Form>, uses: map<Var, nat>, roots: seq<(Var, Expr)>,
                      ats: seq<nat>, j: nat, k: nat, m: nat)
    requires Formed(insts, forms) && IsRecovery(block, insts, forms, uses, roots, ats) && FeedsOnce(insts, forms, j, k, m)
    ensures |roots| == |ats|
    ensures forall i :: 0 <= i < |roots| ==> !(ats[i] == j && roots[i].0 == forms[k].operands[m])
    ensures forall i :: 0 <= i < |roots| && ats[i] == k ==>
              roots[i].1.Op? && m < |roots[i].1.operands| && roots[i].1.operands[m] == Plain(block, forms, j)
  {
    assert |roots| == |ats| && |insts| == |forms|;
    hide IsRecovery, Absorbs;
    RootsExact(block, insts, forms, uses, roots, ats);
    FeedsAbsorbs(block, insts, forms, j, k, m);
    assert Takes(insts, forms, k, m) && IsTaken(insts, forms, Def(j, forms[k].operands[m]));
    forall i | 0 <= i < |roots| ensures !(ats[i] == j && roots[i].0 == forms[k].operands[m]) {
      assert IsRoot(Def(ats[i], roots[i].0), roots, ats);
    }
  }
}
