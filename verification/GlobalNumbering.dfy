/** The value-numbering pass: tables updated per instruction, scoped to the dominator tree and undone exactly. */
module GlobalNumbering {
  import opened Wrappers
  import opened Sequences
  import opened Program
  import opened Trails
  import opened Reachability
  import opened PointDominanceQuery
  import opened BackwardSolve
  import opened VariableRows
  import opened LivenessSolver
  import opened Ways
  import opened Numbering
  import opened NumberingMeaning
  import opened NumberingSoundness
  import opened RepeatedExpressions

  function Lookup(vars: map<Var, VN>, v: Var): Option<VN> { if v in vars then Some(vars[v]) else None }

  /** What a scope changed: for each variable it bound, what the variable held before. */
  type Saved = map<Var, Option<VN>>

  /** Putting back what was saved turns `now` into `before`. */
  ghost predicate Undoes(saved: Saved, before: map<Var, VN>, now: map<Var, VN>) {
    forall v {:trigger Lookup(before, v)} :: Lookup(before, v) == if v in saved then saved[v] else Lookup(now, v)
  }

  lemma BindUndoes(saved: Saved, before: map<Var, VN>, now: map<Var, VN>, v: Var, n: VN)
    requires Undoes(saved, before, now)
    ensures Undoes(if v in saved then saved else saved[v := Lookup(now, v)], before, now[v := n])
  {
    forall w
      ensures Lookup(before, w) ==
              var next := if v in saved then saved else saved[v := Lookup(now, v)];
              if w in next then next[w] else Lookup(now[v := n], w)
    {
    }
  }

  /** Seeing one more operand keeps the numbers of the operands before it. */
  lemma SeeNumbers(t: Tables, vs: seq<Var>, k: nat)
    requires Issued(t) && k < |vs|
    ensures var seen, more := SeeAll(t, vs[..k]), SeeAll(t, vs[..k + 1]);
            more == See(seen, vs[k]) && NumbersOf(more, vs[..k + 1]) == NumbersOf(seen, vs[..k]) + [NumberOf(more, vs[k])]
  {
    assert vs[..k + 1][..k] == vs[..k];
    SeeAllStep(t, vs[..k]);
    forall i | 0 <= i < k ensures NumberOf(See(SeeAll(t, vs[..k]), vs[k]), vs[i]) == NumberOf(SeeAll(t, vs[..k]), vs[i]) {
      assert vs[i] in vs[..k];
    }
  }

  /** The result for one block. */
  datatype BlockValueNumbers = BlockValueNumbers(instVn: seq<Option<VN>>, redundant: seq<nat>)

  ghost predicate NumbersOk(t: Tables, insts: seq<Inst>, n: nat, result: BlockValueNumbers)
    requires n <= |insts|
  {
    && |result.instVn| == n && (forall i :: 0 <= i < n ==> result.instVn[i] == NumberedAt(t, insts, i).value)
    && Increasing(result.redundant)
    && (forall i: nat {:trigger i in result.redundant} :: i in result.redundant <==> i < n && NumberedAt(t, insts, i).redundant)
  }

  class NumberingTables {
    var vars: map<Var, VN>
    var exprs: map<Key, VN>
    var next: VN

    function View(): Tables
      reads this
    {
      Tables(vars, exprs, next)
    }

    constructor (next: VN)
      ensures View() == Tables(map[], map[], next)
    {
      vars, exprs, this.next := map[], map[], next;
    }

    method FreshNumber() returns (n: VN)
      modifies this`next
      ensures n == old(next) && next == n + 1
    {
      n := next;
      next := next + 1;
    }

    method BindVariable(v: Var, n: VN, saved: Saved, ghost before: map<Var, VN>) returns (more: Saved)
      requires Undoes(saved, before, vars)
      modifies this`vars
      ensures View() == Bind(old(View()), v, n) && Undoes(more, before, vars)
    {
      BindUndoes(saved, before, vars, v, n);
      more := if v in saved then saved else saved[v := Lookup(vars, v)];
      vars := vars[v := n];
    }

    method RedefineVariable(v: Var, saved: Saved, ghost before: map<Var, VN>) returns (more: Saved)
      requires Undoes(saved, before, vars)
      modifies this
      ensures View() == Redefine(old(View()), v) && Undoes(more, before, vars)
    {
      var n := FreshNumber();
      more := BindVariable(v, n, saved, before);
    }

    method RedefineVariables(vs: seq<Var>, saved: Saved, ghost before: map<Var, VN>) returns (more: Saved)
      requires Undoes(saved, before, vars)
      modifies this
      ensures View() == RedefineAll(old(View()), vs) && Undoes(more, before, vars)
    {
      more := saved;
      for k := 0 to |vs|
        invariant View() == RedefineAll(old(View()), vs[..k]) && Undoes(more, before, vars)
      {
        more := RedefineVariable(vs[k], more, before);
        assert vs[..k + 1][..k] == vs[..k];
      }
      TakeAll(vs);
    }

    method ValueOf(v: Var, saved: Saved, ghost before: map<Var, VN>) returns (n: VN, more: Saved)
      requires Undoes(saved, before, vars)
      modifies this
      ensures View() == See(old(View()), v) && v in vars && n == vars[v] && Undoes(more, before, vars)
    {
      if v in vars {
        return vars[v], saved;
      }
      n := FreshNumber();
      more := BindVariable(v, n, saved, before);
    }

    /** The numbers of the operands, each seen in turn. */
    method OperandNumbers(vs: seq<Var>, saved: Saved, ghost before: map<Var, VN>) returns (numbers: seq<VN>, more: Saved)
      requires Undoes(saved, before, vars) && Issued(View())
      modifies this
      ensures View() == SeeAll(old(View()), vs) && numbers == NumbersOf(View(), vs) && Undoes(more, before, vars)
    {
      numbers, more := [], saved;
      for k := 0 to |vs|
        invariant View() == SeeAll(old(View()), vs[..k])
        invariant numbers == NumbersOf(View(), vs[..k]) && Undoes(more, before, vars)
      {
        SeeNumbers(old(View()), vs, k);
        var n;
        n, more := ValueOf(vs[k], more, before);
        numbers := numbers + [n];
      }
      TakeAll(vs);
    }

    method BindVariables(vs: seq<Var>, n: VN, saved: Saved, ghost before: map<Var, VN>) returns (more: Saved)
      requires Undoes(saved, before, vars)
      modifies this`vars
      ensures View() == BindAll(old(View()), vs, n) && Undoes(more, before, vars)
    {
      more := saved;
      for k := 0 to |vs|
        invariant View() == BindAll(old(View()), vs[..k], n) && Undoes(more, before, vars)
        modifies this`vars
      {
        more := BindVariable(vs[k], n, more, before);
        assert vs[..k + 1][..k] == vs[..k];
      }
      TakeAll(vs);
    }

    /** The numbering rule. */
    method NumberInstruction(inst: Inst, saved: Saved, ghost before: map<Var, VN>) returns (numbered: Numbered, more: Saved)
      requires Undoes(saved, before, vars) && Issued(View())
      modifies this
      ensures (View(), numbered) == NumberInst(old(View()), inst) && Undoes(more, before, vars)
    {
      if !inst.pure || inst.defs == [] {
        more := RedefineVariables(inst.defs, saved, before);
        numbered := Numbered(None, false, None);
        return;
      }
      var operands;
      operands, more := OperandNumbers(inst.uses, saved, before);
      var key := Key(inst.op, operands);
      if key in exprs {
        var existing := exprs[key];
        more := BindVariables(inst.defs, existing, more, before);
        numbered := Numbered(Some(existing), true, None);
      } else {
        var n := FreshNumber();
        exprs := exprs[key := n];
        more := BindVariables(inst.defs, n, more, before);
        numbered := Numbered(Some(n), false, Some(key));
      }
    }
  }

  /** Walking backward from `y`, never through `d`: the reachable blocks on a path from `d` to `y`. */
  method SideBlocks(p: Cfg, d: BlockId, y: BlockId, reachable: set<BlockId>) returns (between: set<BlockId>)
    requires p.WellFormed() && d != y && y in p.blocks
    requires forall b :: b in reachable <==> ReachableBlock(p, b)
    ensures between <= p.blocks.Keys && forall z :: z in between <==> Between(p, d, y, z)
  {
    between := {};
    var pending := {y};
    while pending != {}
      invariant between <= p.blocks.Keys && pending <= between + {y}
      invariant forall z {:trigger Between(p, d, y, z)} :: z in between ==> Between(p, d, y, z)
      invariant forall z {:trigger Scanned(p, d, reachable, between, z)} ::
                  z in between + {y} && z !in pending ==> Scanned(p, d, reachable, between, z)
      decreases p.blocks.Keys - between, |pending|
    {
      var node :| node in pending;
      var found := set z | z in Predecessors(p, node) && z != d && z in reachable && z !in between;
      ScanNode(p, d, y, reachable, between, pending, node, found);
      between, pending := between + found, pending - {node} + found;
    }
    forall z | Between(p, d, y, z) ensures z in between {
      var w: Way :| IsWay(p, w) && w.Hop? && w.at == z && w.End() == y && w.Avoids(d);
      ScannedComplete(p, d, y, reachable, between, w);
    }
  }

  /** Every reachable predecessor of `z` other than `d` has been found. */
  ghost predicate Scanned(p: Cfg, d: BlockId, reachable: set<BlockId>, between: set<BlockId>, z: BlockId) {
    forall x :: x in Predecessors(p, z) && x != d && x in reachable ==> x in between
  }

  lemma PredecessorMeans(p: Cfg, z: BlockId, x: BlockId)
    requires p.WellFormed() && z in p.blocks
    ensures x in Predecessors(p, z) <==> Succ(p, x, z)
  {
    if Succ(p, x, z) {
      var e :| e in p.edges && p.edges[e].source == x && p.edges[e].target == z;
      assert e in p.inc[z];
    }
  }

  lemma HopOn(p: Cfg, z: BlockId, w: Way, d: BlockId, y: BlockId)
    requires IsWay(p, w) && Succ(p, z, w.at) && w.Avoids(d) && z != d && w.End() == y
    ensures IsWay(p, Hop(z, w)) && Hop(z, w).Hop? && Hop(z, w).at == z && Hop(z, w).Avoids(d) && Hop(z, w).End() == y
  {
  }

  lemma ScanNode(p: Cfg, d: BlockId, y: BlockId, reachable: set<BlockId>, between: set<BlockId>, pending: set<BlockId>,
                 node: BlockId, found: set<BlockId>)
    requires p.WellFormed() && d != y && y in p.blocks && node in pending && pending <= between + {y}
    requires forall b :: b in reachable <==> ReachableBlock(p, b)
    requires between <= p.blocks.Keys
    requires forall z {:trigger Between(p, d, y, z)} :: z in between ==> Between(p, d, y, z)
    requires forall z {:trigger Scanned(p, d, reachable, between, z)} ::
               z in between + {y} && z !in pending ==> Scanned(p, d, reachable, between, z)
    requires found == set z | z in Predecessors(p, node) && z != d && z in reachable && z !in between
    ensures found <= p.blocks.Keys && found !! between
    ensures forall z :: z in found ==> Between(p, d, y, z)
    ensures forall z :: z in between + found + {y} && z !in pending - {node} + found ==>
              Scanned(p, d, reachable, between + found, z)
  {
    forall z | z in found ensures z in p.blocks && Between(p, d, y, z) {
      PredecessorMeans(p, node, z);
      var w := Arrive(y);
      if node in between {
        assert Between(p, d, y, node);
        w :| IsWay(p, w) && w.Hop? && w.at == node && w.End() == y && w.Avoids(d);
      }
      HopOn(p, z, w, d, y);
    }
    forall z | z in between + found + {y} && z !in pending - {node} + found
      ensures Scanned(p, d, reachable, between + found, z)
    {
      assert z != node ==> Scanned(p, d, reachable, between, z);
    }
  }

  lemma {:induction false} ScannedComplete(p: Cfg, d: BlockId, y: BlockId, reachable: set<BlockId>, between: set<BlockId>, w: Way)
    requires p.WellFormed() && y in p.blocks && IsWay(p, w) && w.Hop? && w.End() == y && w.Avoids(d)
    requires ReachableBlock(p, w.at) && between <= p.blocks.Keys
    requires forall b :: b in reachable <==> ReachableBlock(p, b)
    requires forall z {:trigger Scanned(p, d, reachable, between, z)} ::
               z in between + {y} ==> Scanned(p, d, reachable, between, z)
    ensures w.at in between
  {
    var t :| IsTrailTo(p, t, p.entry, w.at);
    assert IsTrailTo(p, To(t, w.rest.at), p.entry, w.rest.at);
    if w.rest.Hop? {
      ScannedComplete(p, d, y, reachable, between, w.rest);
    }
    PredecessorMeans(p, w.rest.at, w.at);
    assert Scanned(p, d, reachable, between, w.rest.at);
  }

  /** The variables the blocks between `d` and `y` write, sorted, each once. */
  method SideDefinitions(p: Cfg, d: BlockId, y: BlockId, reachable: set<BlockId>) returns (variables: seq<Var>)
    requires p.WellFormed() && d != y && y in p.blocks
    requires forall b :: b in reachable <==> ReachableBlock(p, b)
    ensures forall v :: v in variables <==> SideDefinition(p, d, y, v)
  {
    var between := SideBlocks(p, d, y, reachable);
    variables := [];
    var rest := between;
    while rest != {}
      invariant rest <= between && Increasing(variables)
      invariant forall v :: v in variables <==>
                  exists z, i :: z in between - rest && 0 <= i < |Insts(p, z)| && v in Insts(p, z)[i].defs
      decreases rest
    {
      var z :| z in rest;
      rest := rest - {z};
      ghost var before := variables;
      var insts := Insts(p, z);
      for i := 0 to |insts|
        invariant Increasing(variables)
        invariant forall v :: v in variables <==> v in before || exists k :: 0 <= k < i && v in insts[k].defs
      {
        variables := InsertAllSorted(variables, insts[i].defs);
      }
    }
    forall v ensures v in variables <==> SideDefinition(p, d, y, v) {
    }
  }

  /** What a block does from its first unwind point on, which a child entered by an unwind must not see. */
  datatype Suffix = Suffix(variables: seq<Var>, expressions: seq<Key>)

  ghost predicate SuffixOk(t: Tables, insts: seq<Inst>, first: Option<nat>, n: nat, suffix: Option<Suffix>)
    requires n <= |insts|
  {
    && suffix.Some? == first.Some?
    && (first.Some? && first.value <= n ==>
          && Elems(suffix.value.variables) == DefsFrom(insts, first.value, n)
          && Elems(suffix.value.expressions) == KeysFrom(t, insts, first.value, n))
    && (first.Some? && first.value > n ==> suffix.value == Suffix([], []))
  }

  /** What exit must undo. */
  datatype Scope = Scope(saved: Saved, expressions: seq<Key>, hidden: map<Key, VN>)

  /** Leaving the scope turns `now` back into `before`, except for the counter. */
  ghost predicate ScopeUndoes(scope: Scope, before: Tables, now: Tables) {
    && Undoes(scope.saved, before.vars, now.vars)
    && before.exprs == (now.exprs - Elems(scope.expressions)) + scope.hidden
  }

  /** The tables a block starts from, given its parent's suffix when an unwind out of the parent reaches it and the
      variables a side path can rewrite. */
  function EntryTables(t: Tables, after: Option<Suffix>, redefined: seq<Var>): Tables {
    var base := if after.None? then t
                else RedefineAll(t, after.value.variables).(exprs := t.exprs - Elems(after.value.expressions));
    RedefineAll(base, redefined)
  }

  lemma EntryIssued(t: Tables, after: Option<Suffix>, redefined: seq<Var>)
    requires Issued(t)
    ensures Issued(EntryTables(t, after, redefined))
    ensures EntryTables(t, after, redefined).exprs == t.exprs - if after.None? then {} else Elems(after.value.expressions)
  {
    if after.Some? {
      RedefineAllStep(t, after.value.variables);
      RedefineAllStep(RedefineAll(t, after.value.variables).(exprs := t.exprs - Elems(after.value.expressions)), redefined);
    } else {
      RedefineAllStep(t, redefined);
    }
  }

  /** Forgets what the block must not see before its instructions run. */
  method EnterBlock(tables: NumberingTables, after: Option<Suffix>, redefined: seq<Var>)
    returns (saved: Saved, hidden: map<Key, VN>)
    requires Issued(tables.View())
    modifies tables
    ensures tables.View() == EntryTables(old(tables.View()), after, redefined)
    ensures Undoes(saved, old(tables.vars), tables.vars)
    ensures old(tables.exprs) == tables.exprs + hidden
  {
    ghost var before := tables.vars;
    saved, hidden := map[], map[];
    if after.Some? {
      RedefineAllStep(tables.View(), after.value.variables);
      saved := tables.RedefineVariables(after.value.variables, saved, before);
      var keys := after.value.expressions;
      hidden := map k | k in keys && k in tables.exprs :: tables.exprs[k];
      tables.exprs := tables.exprs - Elems(keys);
    }
    EntryIssued(old(tables.View()), after, redefined);
    saved := tables.RedefineVariables(redefined, saved, before);
  }

  lemma SuffixStep(t: Tables, insts: seq<Inst>, first: Option<nat>, i: nat, suffix: Option<Suffix>, numbered: Numbered)
    requires i < |insts| && SuffixOk(t, insts, first, i, suffix) && numbered == NumberedAt(t, insts, i)
    ensures SuffixOk(t, insts, first, i + 1, ExtendSuffix(suffix, first, i, insts[i], numbered))
  {
    var next := ExtendSuffix(suffix, first, i, insts[i], numbered);
    if first.Some? && first.value <= i {
      assert Elems(next.value.variables) == Elems(suffix.value.variables) + Elems(insts[i].defs);
    }
  }

  /** From the first throwing instruction on, an unwind can leave before this instruction's writes and expressions. */
  function ExtendSuffix(suffix: Option<Suffix>, first: Option<nat>, i: nat, inst: Inst, numbered: Numbered): Option<Suffix> {
    if suffix.Some? && first.Some? && first.value <= i then
      Some(Suffix(suffix.value.variables + inst.defs,
                  suffix.value.expressions + if numbered.introduced.Some? then [numbered.introduced.value] else []))
    else suffix
  }

  /** Everything the walk over one block has recorded about its first `i` instructions. */
  ghost predicate Recorded(t: Tables, insts: seq<Inst>, first: Option<nat>, i: nat, result: BlockValueNumbers,
                           added: seq<Key>, suffix: Option<Suffix>)
    requires i <= |insts|
  {
    NumbersOk(t, insts, i, result) && Elems(added) == KeysFrom(t, insts, 0, i) && SuffixOk(t, insts, first, i, suffix)
  }

  function AddNumbers(result: BlockValueNumbers, i: nat, numbered: Numbered): BlockValueNumbers {
    BlockValueNumbers(result.instVn + [numbered.value],
                      if numbered.redundant then result.redundant + [i] else result.redundant)
  }

  function AddKey(added: seq<Key>, numbered: Numbered): seq<Key> {
    if numbered.introduced.Some? then added + [numbered.introduced.value] else added
  }

  lemma NumbersStep(t: Tables, insts: seq<Inst>, i: nat, result: BlockValueNumbers)
    requires i < |insts| && NumbersOk(t, insts, i, result)
    ensures NumbersOk(t, insts, i + 1, AddNumbers(result, i, NumberedAt(t, insts, i)))
  {
    hide NumberInst;
    forall j | 0 <= j < |result.redundant| ensures result.redundant[j] < i {
      assert result.redundant[j] in result.redundant;
    }
  }

  lemma RecordStep(t: Tables, insts: seq<Inst>, first: Option<nat>, i: nat, result: BlockValueNumbers,
                   added: seq<Key>, suffix: Option<Suffix>)
    requires i < |insts| && Recorded(t, insts, first, i, result, added, suffix)
    ensures var numbered := NumberedAt(t, insts, i);
            Recorded(t, insts, first, i + 1, AddNumbers(result, i, numbered), AddKey(added, numbered),
                     ExtendSuffix(suffix, first, i, insts[i], numbered))
  {
    var numbered := NumberedAt(t, insts, i);
    NumbersStep(t, insts, i, result);
    SuffixStep(t, insts, first, i, suffix, numbered);
    assert Elems(AddKey(added, numbered)) ==
           Elems(added) + if numbered.introduced.Some? then {numbered.introduced.value} else {};
  }

  /** The instructions of one block, numbered in order. */
  method NumberInstructions(tables: NumberingTables, insts: seq<Inst>, first: Option<nat>, saved: Saved,
                            ghost before: map<Var, VN>)
    returns (result: BlockValueNumbers, added: seq<Key>, suffix: Option<Suffix>, more: Saved)
    requires Issued(tables.View()) && Undoes(saved, before, tables.vars)
    modifies tables
    ensures tables.View() == TablesAt(old(tables.View()), insts, |insts|) && Undoes(more, before, tables.vars)
    ensures Recorded(old(tables.View()), insts, first, |insts|, result, added, suffix)
  {
    ghost var entry := tables.View();
    result, added, more := BlockValueNumbers([], []), [], saved;
    suffix := if first.Some? then Some(Suffix([], [])) else None;
    for i := 0 to |insts|
      invariant tables.View() == TablesAt(entry, insts, i) && Undoes(more, before, tables.vars)
      invariant Recorded(entry, insts, first, i, result, added, suffix)
    {
      NumberSpan(entry, insts, i, i);
      RecordStep(entry, insts, first, i, result, added, suffix);
      var numbered;
      numbered, more := tables.NumberInstruction(insts[i], more, before);
      result, added := AddNumbers(result, i, numbered), AddKey(added, numbered);
      suffix := ExtendSuffix(suffix, first, i, insts[i], numbered);
    }
  }

  /** Local value numbering: one block, from empty tables. */
  method NumberLocally(p: Cfg, b: BlockId, first: VN) returns (result: BlockValueNumbers, next: VN)
    ensures NumbersOk(Tables(map[], map[], first), Insts(p, b), |Insts(p, b)|, result)
    ensures next == TablesAt(Tables(map[], map[], first), Insts(p, b), |Insts(p, b)|).next && ResultBelow(result, next)
    ensures FindsRepeats(Insts(p, b), result)
  {
    var tables := new NumberingTables(first);
    var added, suffix, saved;
    result, added, suffix, saved := NumberInstructions(tables, Insts(p, b), None, map[], map[]);
    next := tables.next;
    NumbersIssued(Tables(map[], map[], first), Insts(p, b), result);
    BlockRepeats(Tables(map[], map[], first), Insts(p, b), result);
  }

  /** The pure instructions that define something have numbers and no others do. Of two that compute one expression,
      with no operand written from the first on, the second is redundant and has the number of the first; so has one whose
      operands hold, position by position, what those of the first held. */
  ghost predicate FindsRepeats(insts: seq<Inst>, result: BlockValueNumbers) {
    && |result.instVn| == |insts|
    && (forall k :: 0 <= k < |insts| ==> (result.instVn[k].Some? <==> insts[k].pure && insts[k].defs != []))
    && (forall i, j {:trigger SameExpression(insts[i], insts[j])} ::
          0 <= i < j < |insts| && SameExpression(insts[i], insts[j]) && Unwritten(insts, insts[i].uses, i, j) ==>
            j in result.redundant && result.instVn[j] == result.instVn[i])
    && (forall i, j {:trigger Congruent(insts, result.instVn, i, j)} ::
          0 <= i < j < |insts| && Congruent(insts, result.instVn, i, j) ==>
            j in result.redundant && result.instVn[j] == result.instVn[i])
  }

  lemma BlockRepeats(t: Tables, insts: seq<Inst>, result: BlockValueNumbers)
    requires Issued(t) && NumbersOk(t, insts, |insts|, result)
    ensures FindsRepeats(insts, result)
  {
    hide NumberInst, TablesAt, SameExpression, Unwritten, Congruent, Increasing;
    forall k | 0 <= k < |insts| ensures result.instVn[k].Some? <==> insts[k].pure && insts[k].defs != [] {
      NumberedExact(TablesAt(t, insts, k), insts[k]);
    }
    forall i, j | 0 <= i < j < |insts| && SameExpression(insts[i], insts[j]) && Unwritten(insts, insts[i].uses, i, j)
      ensures j in result.redundant && result.instVn[j] == result.instVn[i]
    {
      FoundInBlock(t, insts, i, j);
    }
    forall i, j | 0 <= i < j < |insts| && Congruent(insts, result.instVn, i, j)
      ensures j in result.redundant && result.instVn[j] == result.instVn[i]
    {
      CongruentFound(t, insts, result.instVn, i, j);
    }
  }

  /** Every number handed to an instruction is below `n`. */
  ghost predicate ResultBelow(result: BlockValueNumbers, n: VN) {
    forall i {:trigger result.instVn[i]} :: 0 <= i < |result.instVn| && result.instVn[i].Some? ==> result.instVn[i].value < n
  }

  ghost predicate AllBelow(blocks: map<BlockId, BlockValueNumbers>, n: VN) {
    forall b {:trigger blocks[b]} :: b in blocks ==> ResultBelow(blocks[b], n)
  }

  lemma BelowMore(blocks: map<BlockId, BlockValueNumbers>, n: VN, b: BlockId, result: BlockValueNumbers, m: VN)
    requires AllBelow(blocks, n) && n <= m && ResultBelow(result, m)
    ensures AllBelow(blocks[b := result], m)
  {
    forall x | x in blocks ensures ResultBelow(blocks[x], m) {
    }
  }

  /** The counter passes every number a block is given. */
  lemma NumbersIssued(t: Tables, insts: seq<Inst>, result: BlockValueNumbers)
    requires Issued(t) && NumbersOk(t, insts, |insts|, result)
    ensures ResultBelow(result, TablesAt(t, insts, |insts|).next)
  {
    hide Increasing, NumberedAt, Extends;
    forall i | 0 <= i < |insts| && result.instVn[i].Some? ensures result.instVn[i].value < TablesAt(t, insts, |insts|).next {
      NumberIssued(t, insts, i);
      NumberSpan(t, insts, i + 1, |insts|);
    }
  }

  lemma NumberIssued(t: Tables, insts: seq<Inst>, i: nat)
    requires Issued(t) && i < |insts| && NumberedAt(t, insts, i).value.Some?
    ensures NumberedAt(t, insts, i).value.value < TablesAt(t, insts, i + 1).next
  {
    NumberSpan(t, insts, 0, i);
    hide Extends;
    var before, inst := TablesAt(t, insts, i), insts[i];
    var seen, key := SeeAll(before, inst.uses), KeyOf(before, inst);
    SeeAllStep(before, inst.uses);
    if key in seen.exprs {
      BindAllStep(seen, inst.defs, seen.exprs[key]);
    } else {
      KeyIssued(before, inst);
      AddKeyExtends(before, seen, key);
      BindAllStep(Tables(seen.vars, seen.exprs[key := seen.next], seen.next + 1), inst.defs, seen.next);
    }
  }

  /** Numbers one block, returning what to undo when its scope exits and what an unwind out of it must hide. */
  method NumberBlock(p: Cfg, b: BlockId, after: Option<Suffix>, redefined: seq<Var>, tables: NumberingTables)
    returns (scope: Scope, suffix: Option<Suffix>, result: BlockValueNumbers, ghost entry: Tables)
    requires Issued(tables.View())
    modifies tables
    ensures entry == EntryTables(old(tables.View()), after, redefined) && Issued(entry)
    ensures tables.View() == TablesAt(entry, Insts(p, b), |Insts(p, b)|)
    ensures Issued(tables.View()) && tables.next >= old(tables.next)
    ensures NumbersOk(entry, Insts(p, b), |Insts(p, b)|, result) && ResultBelow(result, tables.next)
    ensures ScopeUndoes(scope, old(tables.View()), tables.View())
    ensures SuffixOk(entry, Insts(p, b), FirstUnwind(p, b), |Insts(p, b)|, suffix)
  {
    ghost var before := tables.View();
    EntryIssued(before, after, redefined);
    var saved, hidden := EnterBlock(tables, after, redefined);
    entry := tables.View();
    var insts, added := Insts(p, b), [];
    result, added, suffix, saved := NumberInstructions(tables, insts, FirstUnwindPoint(p, b), saved, before.vars);
    EntryForgets(before, after, redefined);
    NumberSpan(entry, insts, 0, |insts|);
    NumbersIssued(entry, insts, result);
    HideKeys(entry, insts, 0, |insts|);
    scope := Scope(saved, added, hidden);
  }

  lemma SameLookups(a: map<Var, VN>, b: map<Var, VN>)
    requires forall v {:trigger Lookup(b, v)} :: Lookup(b, v) == Lookup(a, v)
    ensures a == b
  {
    forall v ensures (v in a <==> v in b) && (v in a && v in b ==> a[v] == b[v]) {
      assert Lookup(b, v) == Lookup(a, v);
    }
  }

  /** Puts back every variable the scope bound. */
  method RestoreVariables(tables: NumberingTables, saved: Saved, ghost before: map<Var, VN>)
    requires Undoes(saved, before, tables.vars)
    modifies tables`vars
    ensures tables.vars == before
  {
    var rest := saved.Keys;
    while rest != {}
      invariant rest <= saved.Keys
      invariant forall v {:trigger Lookup(before, v)} ::
                  Lookup(before, v) == if v in rest then saved[v] else Lookup(tables.vars, v)
      decreases rest
    {
      HasMember(rest);
      var v :| v in rest;
      rest := rest - {v};
      assert Lookup(before, v) == saved[v];
      if saved[v].Some? {
        tables.vars := tables.vars[v := saved[v].value];
      } else {
        tables.vars := tables.vars - {v};
      }
    }
    SameLookups(tables.vars, before);
  }

  /** Leaving a scope gives back the tables as they were before it; only the counter has grown. */
  method ExitScope(tables: NumberingTables, scope: Scope, ghost before: Tables)
    requires ScopeUndoes(scope, before, tables.View())
    modifies tables
    ensures tables.View() == before.(next := old(tables.next))
  {
    tables.exprs := tables.exprs - Elems(scope.expressions);
    RestoreVariables(tables, scope.saved, before.vars);
    tables.exprs := tables.exprs + scope.hidden;
  }

  /** A dominator tree, children in walk order. */
  datatype DomTree = Node(block: BlockId, children: seq<DomTree>)

  ghost function Blocks(t: DomTree): set<BlockId> {
    {t.block} + set c, b | c in t.children && b in Blocks(c) :: b
  }

  /** Every path to a child's block passes through its parent's, and no block occurs twice. */
  ghost predicate TreeOk(p: Cfg, t: DomTree) {
    && t.block in p.blocks
    && (forall i :: 0 <= i < |t.children| ==>
          && TreeOk(p, t.children[i]) && t.block !in Blocks(t.children[i])
          && BlockDominates(p, t.block, t.children[i].block))
    && (forall i, j :: 0 <= i < j < |t.children| ==> Blocks(t.children[i]) !! Blocks(t.children[j]))
  }

  /** The tables and the results the walk has produced so far only ever gain blocks. */
  ghost predicate Grew(start: Start, blocks: map<BlockId, BlockValueNumbers>, grown: Start,
                       more: map<BlockId, BlockValueNumbers>) {
    && (forall b {:trigger grown.at[b]} {:trigger b in start.at} :: b in start.at ==> b in grown.at && grown.at[b] == start.at[b])
    && (forall b {:trigger grown.idom[b]} {:trigger b in start.idom} :: b in start.idom ==>
          b in grown.idom && grown.idom[b] == start.idom[b])
    && (forall b {:trigger more[b]} {:trigger b in blocks} :: b in blocks ==> b in more && more[b] == blocks[b])
  }

  ghost predicate BlockNumbered(p: Cfg, start: Start, blocks: map<BlockId, BlockValueNumbers>, b: BlockId) {
    && b in start.at && Issued(start.at[b]) && b in blocks
    && NumbersOk(start.at[b], Insts(p, b), |Insts(p, b)|, blocks[b])
  }

  ghost predicate Handed(p: Cfg, start: Start, d: BlockId, y: BlockId) {
    y in start.idom && start.idom[y] == d && EntryFrom(p, start, d, y)
  }

  /** Every block of the subtree is numbered, and every child started from its parent's tables. */
  ghost predicate TreeNumbered(p: Cfg, t: DomTree, start: Start, blocks: map<BlockId, BlockValueNumbers>) {
    && BlockNumbered(p, start, blocks, t.block)
    && forall i :: 0 <= i < |t.children| ==>
         Handed(p, start, t.block, t.children[i].block) && TreeNumbered(p, t.children[i], start, blocks)
  }

  lemma {:induction false} TreeNumberedGrows(p: Cfg, t: DomTree, start: Start, blocks: map<BlockId, BlockValueNumbers>,
                                             grown: Start, more: map<BlockId, BlockValueNumbers>)
    requires TreeNumbered(p, t, start, blocks) && Grew(start, blocks, grown, more)
    ensures TreeNumbered(p, t, grown, more)
  {
    assert grown.at[t.block] == start.at[t.block] && more[t.block] == blocks[t.block];
    forall i | 0 <= i < |t.children|
      ensures Handed(p, grown, t.block, t.children[i].block) && TreeNumbered(p, t.children[i], grown, more)
    {
      TreeNumberedGrows(p, t.children[i], start, blocks, grown, more);
      HandedGrows(p, t.block, t.children[i].block, start, blocks, grown, more);
    }
  }

  lemma HandedGrows(p: Cfg, d: BlockId, y: BlockId, start: Start, blocks: map<BlockId, BlockValueNumbers>,
                    grown: Start, more: map<BlockId, BlockValueNumbers>)
    requires Handed(p, start, d, y) && Grew(start, blocks, grown, more)
    ensures Handed(p, grown, d, y)
  {
    assert grown.at[d] == start.at[d] && grown.at[y] == start.at[y];
  }

  /** What the parent hands a child it enters: its suffix, when an unwind out of it reaches the child. */
  method SuffixFor(p: Cfg, d: BlockId, y: BlockId, suffix: Option<Suffix>) returns (after: Option<Suffix>)
    requires p.WellFormed() && suffix.Some? == FirstUnwind(p, d).Some?
    ensures after == if AfterUnwind(p, d, y) then suffix else None
  {
    if suffix.None? {
      return None;
    }
    var reached := Reach(p, UnwindSuccessors(p, d), Some(d));
    UnwindReachesBy(p, d, y);
    after := if y in reached then suffix else None;
  }

  /** The tables a child is entered with are what its parent ended with, but for what it must forget. */
  lemma EntryTablesHanded(p: Cfg, start: Start, d: BlockId, y: BlockId, t: Tables, suffix: Option<Suffix>, redefined: seq<Var>)
    requires d in start.at && y in start.at && Issued(start.at[d]) && Issued(t)
    requires var e := TablesBefore(p, start, Pos(d, |Insts(p, d)|));
             t.vars == e.vars && t.exprs == e.exprs && t.next >= e.next
    requires SuffixOk(start.at[d], Insts(p, d), FirstUnwind(p, d), |Insts(p, d)|, suffix)
    requires forall v :: v in redefined <==> SideDefinition(p, d, y, v)
    requires start.at[y] == EntryTables(t, if AfterUnwind(p, d, y) then suffix else None, redefined)
    ensures EntryFrom(p, start, d, y)
  {
    var e := TablesBefore(p, start, Pos(d, |Insts(p, d)|));
    TablesIssued(p, start, Pos(d, |Insts(p, d)|));
    var after := if AfterUnwind(p, d, y) then suffix else None;
    EntryIssued(t, after, redefined);
    EntryForgets(t, after, redefined);
    assert forall v :: Forgotten(p, d, y, v) <==> v in redefined || (after.Some? && v in after.value.variables);
  }

  lemma EntryForgets(t: Tables, after: Option<Suffix>, redefined: seq<Var>)
    requires Issued(t)
    ensures var u := EntryTables(t, after, redefined);
            && u.next >= t.next
            && (forall v :: v !in redefined && (after.Some? ==> v !in after.value.variables) ==>
                  (v in u.vars <==> v in t.vars) && (v in t.vars ==> u.vars[v] == t.vars[v]))
            && (forall v :: v in redefined || (after.Some? && v in after.value.variables) ==>
                  v in u.vars && u.vars[v] >= t.next)
            && InjectiveFrom(u.vars, t.next)
  {
    if after.Some? {
      var mid := RedefineAll(t, after.value.variables).(exprs := t.exprs - Elems(after.value.expressions));
      RedefineAllStep(t, after.value.variables);
      RedefineAllStep(mid, redefined);
    } else {
      RedefineAllStep(t, redefined);
    }
  }

  ghost function Forest(ts: seq<DomTree>, k: nat): set<BlockId>
    requires k <= |ts|
  {
    if k == 0 then {} else Forest(ts, k - 1) + Blocks(ts[k - 1])
  }

  lemma {:induction false} ForestInside(ts: seq<DomTree>, k: nat, b: BlockId)
    requires k <= |ts|
    ensures b in Forest(ts, k) <==> exists i :: 0 <= i < k && b in Blocks(ts[i])
  {
    if k > 0 {
      ForestInside(ts, k - 1, b);
    }
  }

  lemma ForestApart(p: Cfg, t: DomTree, k: nat, b: BlockId)
    requires TreeOk(p, t) && k < |t.children| && b in Blocks(t.children[k])
    ensures b != t.block && b !in Forest(t.children, k) && b in Blocks(t)
  {
    ForestInside(t.children, k, b);
    assert t.children[k] in t.children;
    assert forall i :: 0 <= i < k ==> Blocks(t.children[i]) !! Blocks(t.children[k]);
  }

  lemma ForestBelow(t: DomTree, k: nat, b: BlockId)
    requires k <= |t.children| && b in Forest(t.children, k)
    ensures b in Blocks(t)
  {
    ForestInside(t.children, k, b);
    var i :| 0 <= i < k && b in Blocks(t.children[i]);
    assert t.children[i] in t.children;
  }

  /** None of these blocks has been numbered. */
  ghost predicate Untouched(s: set<BlockId>, start: Start, blocks: map<BlockId, BlockValueNumbers>) {
    forall b :: b in s ==> b !in start.at && b !in start.idom && b !in blocks
  }

  /** Only blocks of `s` have been numbered since. */
  ghost predicate Within(start: Start, blocks: map<BlockId, BlockValueNumbers>, grown: Start,
                         more: map<BlockId, BlockValueNumbers>, s: set<BlockId>) {
    && (forall b :: b in grown.at ==> b in start.at || b in s)
    && (forall b :: b in grown.idom ==> b in start.idom || b in s)
    && (forall b :: b in more ==> b in blocks || b in s)
  }

  lemma NextUntouched(p: Cfg, t: DomTree, i: nat, start: Start, blocks: map<BlockId, BlockValueNumbers>, grown: Start,
                      more: map<BlockId, BlockValueNumbers>)
    requires TreeOk(p, t) && i < |t.children| && Untouched(Blocks(t) - {t.block}, start, blocks)
    requires Within(start, blocks, grown, more, Forest(t.children, i))
    ensures Untouched(Blocks(t.children[i]), grown, more)
  {
    forall b | b in Blocks(t.children[i]) ensures b !in grown.at && b !in grown.idom && b !in more {
      ForestApart(p, t, i, b);
    }
  }

  lemma WithinNext(start: Start, blocks: map<BlockId, BlockValueNumbers>, mid: Start, had: map<BlockId, BlockValueNumbers>,
                   grown: Start, more: map<BlockId, BlockValueNumbers>, s: set<BlockId>, s': set<BlockId>)
    requires Within(start, blocks, mid, had, s) && Within(mid, had, grown, more, s')
    ensures Within(start, blocks, grown, more, s + s')
  {
  }

  lemma WithinTree(t: DomTree, start: Start, blocks: map<BlockId, BlockValueNumbers>, grown: Start,
                   more: map<BlockId, BlockValueNumbers>)
    requires Within(start, blocks, grown, more, Forest(t.children, |t.children|))
    ensures Within(start, blocks, grown, more, Blocks(t))
  {
    forall b | b in Forest(t.children, |t.children|) ensures b in Blocks(t) {
      ForestBelow(t, |t.children|, b);
    }
  }

  /** What a child is entered with: where its parent stands in the walk. */
  ghost predicate Entered(p: Cfg, start: Start, d: BlockId, suffix: Option<Suffix>, t: Tables) {
    && d in p.blocks && d in start.at && Issued(start.at[d])
    && SuffixOk(start.at[d], Insts(p, d), FirstUnwind(p, d), |Insts(p, d)|, suffix)
    && var e := TablesBefore(p, start, Pos(d, |Insts(p, d)|));
       t.vars == e.vars && t.exprs == e.exprs && t.next >= e.next
  }

  /** What must be forgotten on entry to `y`, a child of `parent` in the tree. */
  method EntryOf(p: Cfg, parent: Option<BlockId>, y: BlockId, suffix: Option<Suffix>, reachable: set<BlockId>)
    returns (after: Option<Suffix>, redefined: seq<Var>)
    requires p.WellFormed() && y in p.blocks && forall b :: b in reachable <==> ReachableBlock(p, b)
    requires parent.Some? ==> suffix.Some? == FirstUnwind(p, parent.value).Some? && parent.value != y
    ensures parent.None? ==> after == None && redefined == []
    ensures parent.Some? ==> after == if AfterUnwind(p, parent.value, y) then suffix else None
    ensures parent.Some? ==> forall v :: v in redefined <==> SideDefinition(p, parent.value, y, v)
  {
    after, redefined := None, [];
    if parent.Some? {
      after := SuffixFor(p, parent.value, y, suffix);
      redefined := SideDefinitions(p, parent.value, y, reachable);
    }
  }

  lemma GrewTrans(start: Start, blocks: map<BlockId, BlockValueNumbers>, mid: Start, had: map<BlockId, BlockValueNumbers>,
                  grown: Start, more: map<BlockId, BlockValueNumbers>)
    requires Grew(start, blocks, mid, had) && Grew(mid, had, grown, more)
    ensures Grew(start, blocks, grown, more)
  {
  }

  /** Recording where a block of the tree started. */
  lemma EnterChild(p: Cfg, start: Start, parent: Option<BlockId>, y: BlockId, before: Tables, suffix: Option<Suffix>,
                   after: Option<Suffix>, redefined: seq<Var>, entry: Tables)
    returns (grown: Start)
    requires Issued(before) && y !in start.at && entry == EntryTables(before, after, redefined)
    requires parent.Some? ==>
               && Entered(p, start, parent.value, suffix, before) && parent.value != y
               && after == (if AfterUnwind(p, parent.value, y) then suffix else None)
               && forall v :: v in redefined <==> SideDefinition(p, parent.value, y, v)
    ensures grown.at == start.at[y := entry]
    ensures grown.idom == if parent.Some? then start.idom[y := parent.value] else start.idom
    ensures parent.Some? ==> Handed(p, grown, parent.value, y)
  {
    grown := Start(if parent.Some? then start.idom[y := parent.value] else start.idom, start.at[y := entry]);
    if parent.Some? {
      EntryTablesHanded(p, grown, parent.value, y, before, suffix, redefined);
    }
  }

  /** Numbers a dominator subtree. Afterwards the tables are what they were before it, expressions hidden and
      introduced again inside it included; only the counter has grown. */
  method NumberSubtree(p: Cfg, t: DomTree, parent: Option<BlockId>, suffix: Option<Suffix>, reachable: set<BlockId>,
                       tables: NumberingTables, blocks: map<BlockId, BlockValueNumbers>, ghost start: Start)
    returns (more: map<BlockId, BlockValueNumbers>, ghost grown: Start)
    requires p.WellFormed() && TreeOk(p, t) && forall b :: b in reachable <==> ReachableBlock(p, b)
    requires Issued(tables.View()) && Untouched(Blocks(t), start, blocks)
    requires parent.Some? ==> Entered(p, start, parent.value, suffix, tables.View()) && parent.value != t.block
    requires AllBelow(blocks, tables.next)
    modifies tables
    ensures AllBelow(more, tables.next)
    ensures tables.View() == old(tables.View()).(next := tables.next) && tables.next >= old(tables.next)
    ensures Grew(start, blocks, grown, more) && TreeNumbered(p, t, grown, more)
    ensures Within(start, blocks, grown, more, Blocks(t))
    ensures match parent
            case Some(d) => Handed(p, grown, d, t.block)
            case None => t.block in grown.at && grown.at[t.block] == old(tables.View())
    decreases t
  {
    ghost var before := tables.View();
    var after, redefined := EntryOf(p, parent, t.block, suffix, reachable);
    var scope, own, result;
    ghost var entry;
    scope, own, result, entry := NumberBlock(p, t.block, after, redefined, tables);
    more := blocks[t.block := result];
    BelowMore(blocks, before.next, t.block, result, tables.next);
    ghost var had := more;
    ghost var first := EnterChild(p, start, parent, t.block, before, suffix, after, redefined, entry);
    more, grown := NumberChildren(p, t, own, reachable, tables, more, first);
    ExitScope(tables, scope, before);
    LeaveSubtree(p, t, parent, start, blocks, first, had, grown, more);
  }

  lemma LeaveSubtree(p: Cfg, t: DomTree, parent: Option<BlockId>, start: Start, blocks: map<BlockId, BlockValueNumbers>,
                     first: Start, had: map<BlockId, BlockValueNumbers>, grown: Start, more: map<BlockId, BlockValueNumbers>)
    requires Grew(start, blocks, first, had) && Grew(first, had, grown, more)
    requires Within(start, blocks, first, had, {t.block}) && Within(first, had, grown, more, Blocks(t))
    requires parent.Some? ==> Handed(p, first, parent.value, t.block)
    ensures Grew(start, blocks, grown, more) && Within(start, blocks, grown, more, Blocks(t))
    ensures parent.Some? ==> Handed(p, grown, parent.value, t.block)
  {
    GrewTrans(start, blocks, first, had, grown, more);
    WithinNext(start, blocks, first, had, grown, more, {t.block}, Blocks(t));
    if parent.Some? {
      HandedGrows(p, parent.value, t.block, first, had, grown, more);
    }
  }

  ghost predicate ChildNumbered(p: Cfg, t: DomTree, k: nat, start: Start, blocks: map<BlockId, BlockValueNumbers>)
    requires k < |t.children|
  {
    Handed(p, start, t.block, t.children[k].block) && TreeNumbered(p, t.children[k], start, blocks)
  }

  ghost predicate ChildrenNumbered(p: Cfg, t: DomTree, i: nat, start: Start, blocks: map<BlockId, BlockValueNumbers>)
    requires i <= |t.children|
  {
    forall k :: 0 <= k < i ==> ChildNumbered(p, t, k, start, blocks)
  }

  /** Which subtrees below `t` are numbered. */
  ghost predicate NumberedUpTo(p: Cfg, t: DomTree, i: nat, start: Start, blocks: map<BlockId, BlockValueNumbers>,
                               grown: Start, more: map<BlockId, BlockValueNumbers>)
    requires i <= |t.children|
  {
    && Grew(start, blocks, grown, more) && Within(start, blocks, grown, more, Forest(t.children, i))
    && ChildrenNumbered(p, t, i, grown, more)
  }

  lemma ChildStays(p: Cfg, t: DomTree, k: nat, start: Start, blocks: map<BlockId, BlockValueNumbers>, grown: Start,
                   more: map<BlockId, BlockValueNumbers>)
    requires k < |t.children| && ChildNumbered(p, t, k, start, blocks) && Grew(start, blocks, grown, more)
    ensures ChildNumbered(p, t, k, grown, more)
  {
    HandedGrows(p, t.block, t.children[k].block, start, blocks, grown, more);
    TreeNumberedGrows(p, t.children[k], start, blocks, grown, more);
  }

  /** The subtrees numbered earlier keep their numbering while the next one is numbered. */
  lemma ChildrenStay(p: Cfg, t: DomTree, i: nat, start: Start, blocks: map<BlockId, BlockValueNumbers>, grown: Start,
                     more: map<BlockId, BlockValueNumbers>)
    requires i <= |t.children| && Grew(start, blocks, grown, more)
    requires ChildrenNumbered(p, t, i, start, blocks)
    ensures ChildrenNumbered(p, t, i, grown, more)
  {
    forall k | 0 <= k < i ensures ChildNumbered(p, t, k, grown, more) {
      ChildStays(p, t, k, start, blocks, grown, more);
    }
  }

  lemma AddChild(p: Cfg, t: DomTree, i: nat, start: Start, blocks: map<BlockId, BlockValueNumbers>)
    requires i < |t.children| && ChildrenNumbered(p, t, i, start, blocks) && ChildNumbered(p, t, i, start, blocks)
    ensures ChildrenNumbered(p, t, i + 1, start, blocks)
  {
  }

  lemma NumberedNext(p: Cfg, t: DomTree, i: nat, start: Start, blocks: map<BlockId, BlockValueNumbers>, mid: Start,
                     had: map<BlockId, BlockValueNumbers>, grown: Start, more: map<BlockId, BlockValueNumbers>)
    requires i < |t.children| && NumberedUpTo(p, t, i, start, blocks, mid, had) && Grew(mid, had, grown, more)
    requires Within(mid, had, grown, more, Blocks(t.children[i]))
    requires ChildNumbered(p, t, i, grown, more)
    ensures NumberedUpTo(p, t, i + 1, start, blocks, grown, more)
  {
    ChildrenStay(p, t, i, mid, had, grown, more);
    AddChild(p, t, i, grown, more);
    GrewTrans(start, blocks, mid, had, grown, more);
    WithinNext(start, blocks, mid, had, grown, more, Forest(t.children, i), Blocks(t.children[i]));
  }

  lemma NumberedAll(p: Cfg, t: DomTree, start: Start, blocks: map<BlockId, BlockValueNumbers>, grown: Start,
                    more: map<BlockId, BlockValueNumbers>)
    requires NumberedUpTo(p, t, |t.children|, start, blocks, grown, more) && BlockNumbered(p, start, blocks, t.block)
    ensures TreeNumbered(p, t, grown, more) && Within(start, blocks, grown, more, Blocks(t))
  {
    WithinTree(t, start, blocks, grown, more);
    assert grown.at[t.block] == start.at[t.block] && more[t.block] == blocks[t.block];
    forall k | 0 <= k < |t.children|
      ensures Handed(p, grown, t.block, t.children[k].block) && TreeNumbered(p, t.children[k], grown, more)
    {
      assert ChildNumbered(p, t, k, grown, more);
    }
  }

  lemma EnteredGrows(p: Cfg, start: Start, blocks: map<BlockId, BlockValueNumbers>, grown: Start,
                     more: map<BlockId, BlockValueNumbers>, d: BlockId, suffix: Option<Suffix>, t: Tables, u: Tables)
    requires Entered(p, start, d, suffix, t) && Grew(start, blocks, grown, more) && Issued(t)
    requires u == t.(next := u.next) && u.next >= t.next
    ensures Entered(p, grown, d, suffix, u) && Issued(u)
  {
    assert grown.at[d] == start.at[d];
  }

  /** The subtrees below `t`, in order. */
  method NumberChildren(p: Cfg, t: DomTree, suffix: Option<Suffix>, reachable: set<BlockId>, tables: NumberingTables,
                        blocks: map<BlockId, BlockValueNumbers>, ghost start: Start)
    returns (more: map<BlockId, BlockValueNumbers>, ghost grown: Start)
    requires p.WellFormed() && TreeOk(p, t) && forall b :: b in reachable <==> ReachableBlock(p, b)
    requires Issued(tables.View()) && Entered(p, start, t.block, suffix, tables.View())
    requires Untouched(Blocks(t) - {t.block}, start, blocks) && BlockNumbered(p, start, blocks, t.block)
    requires AllBelow(blocks, tables.next)
    modifies tables
    ensures AllBelow(more, tables.next)
    ensures tables.View() == old(tables.View()).(next := tables.next) && tables.next >= old(tables.next)
    ensures Grew(start, blocks, grown, more) && TreeNumbered(p, t, grown, more)
    ensures Within(start, blocks, grown, more, Blocks(t))
    decreases t, 1
  {
    more, grown := blocks, start;
    for i := 0 to |t.children|
      invariant tables.View() == old(tables.View()).(next := tables.next) && tables.next >= old(tables.next)
      invariant NumberedUpTo(p, t, i, start, blocks, grown, more) && AllBelow(more, tables.next)
    {
      more, grown := NumberChild(p, t, i, suffix, reachable, tables, more, grown, blocks, start, old(tables.View()));
    }
    NumberedAll(p, t, start, blocks, grown, more);
  }

  /** The `i`-th subtree below `t`, from the tables its root left. */
  method NumberChild(p: Cfg, t: DomTree, i: nat, suffix: Option<Suffix>, reachable: set<BlockId>, tables: NumberingTables,
                     had: map<BlockId, BlockValueNumbers>, ghost mid: Start, ghost blocks: map<BlockId, BlockValueNumbers>,
                     ghost start: Start, ghost before: Tables)
    returns (more: map<BlockId, BlockValueNumbers>, ghost grown: Start)
    requires p.WellFormed() && TreeOk(p, t) && i < |t.children| && forall b :: b in reachable <==> ReachableBlock(p, b)
    requires Issued(before) && Entered(p, start, t.block, suffix, before)
    requires tables.View() == before.(next := tables.next) && tables.next >= before.next
    requires Untouched(Blocks(t) - {t.block}, start, blocks) && NumberedUpTo(p, t, i, start, blocks, mid, had)
    requires AllBelow(had, tables.next)
    modifies tables
    ensures AllBelow(more, tables.next)
    ensures tables.View() == before.(next := tables.next) && tables.next >= before.next
    ensures NumberedUpTo(p, t, i + 1, start, blocks, grown, more)
    decreases t, 0
  {
    NextUntouched(p, t, i, start, blocks, mid, had);
    EnteredGrows(p, start, blocks, mid, had, t.block, suffix, before, tables.View());
    RootOutside(p, t, i);
    more, grown := NumberSubtree(p, t.children[i], Some(t.block), suffix, reachable, tables, had, mid);
    NumberedNext(p, t, i, start, blocks, mid, had, grown, more);
  }

  lemma RootOutside(p: Cfg, t: DomTree, i: nat)
    requires TreeOk(p, t) && i < |t.children|
    ensures t.block != t.children[i].block && TreeOk(p, t.children[i])
  {
    assert t.children[i].block in Blocks(t.children[i]);
  }

  /** Somewhere in the tree `y` hangs below `d`. */
  ghost predicate IsChild(t: DomTree, d: BlockId, y: BlockId) {
    exists c :: c in t.children && ((t.block == d && c.block == y) || IsChild(c, d, y))
  }

  /** Going down the tree along `ds`, instruction `j` of the last block computes again what instruction `i` of the first
      one did: neither the blocks on the way, nor any side path, nor an unwind from before instruction `i` is done, can
      have changed an operand or missed the computation. */
  ghost predicate Repeats(p: Cfg, t: DomTree, ds: seq<BlockId>, i: nat, j: nat) {
    && 2 <= |ds| && (forall m :: 0 <= m < |ds| - 1 ==> IsChild(t, ds[m], ds[m + 1]))
    && var a, b, last := Insts(p, ds[0]), Insts(p, ds[|ds| - 1]), |ds| - 1;
       && i < |a| && j < |b| && SameExpression(a[i], b[j])
       && Unwritten(a, a[i].uses, i, |a|) && DoneFirst(p, ds[0], ds[1], i + 1)
       && (forall m :: 0 <= m < last ==> NoSideWrites(p, ds[m], ds[m + 1], a[i].uses))
       && (forall m :: 0 < m < last ==> Unwritten(Insts(p, ds[m]), a[i].uses, 0, |Insts(p, ds[m])|))
       && Unwritten(b, a[i].uses, 0, j)
  }

  /** The walk has found the repetition and given it the number of the first computation. */
  ghost predicate Found(blocks: map<BlockId, BlockValueNumbers>, d: BlockId, i: nat, y: BlockId, j: nat) {
    && d in blocks && y in blocks && i < |blocks[d].instVn| && j < |blocks[y].instVn|
    && j in blocks[y].redundant && blocks[y].instVn[j] == blocks[d].instVn[i] && blocks[d].instVn[i].Some?
  }

  lemma {:induction false} ChildHanded(p: Cfg, t: DomTree, start: Start, blocks: map<BlockId, BlockValueNumbers>,
                                       d: BlockId, y: BlockId)
    requires TreeNumbered(p, t, start, blocks) && IsChild(t, d, y)
    ensures EntryFrom(p, start, d, y) && BlockNumbered(p, start, blocks, d) && BlockNumbered(p, start, blocks, y)
    decreases t
  {
    hide BlockNumbered, EntryFrom;
    var c :| c in t.children && ((t.block == d && c.block == y) || IsChild(c, d, y));
    var k :| 0 <= k < |t.children| && t.children[k] == c;
    assert Handed(p, start, t.block, t.children[k].block) && TreeNumbered(p, t.children[k], start, blocks);
    if !(t.block == d && c.block == y) {
      ChildHanded(p, c, start, blocks, d, y);
    }
  }

  /** Every block along the way knows the expression on entry. */
  lemma {:induction false} KnownAlong(p: Cfg, t: DomTree, start: Start, blocks: map<BlockId, BlockValueNumbers>,
                                      ds: seq<BlockId>, i: nat, j: nat, m: nat, n: VN)
    requires TreeNumbered(p, t, start, blocks) && Repeats(p, t, ds, i, j) && 0 < m < |ds|
    requires ds[0] in start.at && NumberedAt(start.at[ds[0]], Insts(p, ds[0]), i).value == Some(n)
    ensures ds[m] in start.at && Knows(start.at[ds[m]], Insts(p, ds[0])[i].op, Insts(p, ds[0])[i].uses, n)
    decreases m
  {
    hide NoSideWrites, Unwritten, DoneFirst, EntryFrom, Knows, TreeNumbered, IsChild, NumberInst, Issued;
    var inst := Insts(p, ds[0])[i];
    assert IsChild(t, ds[m - 1], ds[m - 1 + 1]);
    ChildHanded(p, t, start, blocks, ds[m - 1], ds[m]);
    if m == 1 {
      LearnAt(start.at[ds[0]], Insts(p, ds[0]), i);
      UnwrittenLater(Insts(p, ds[0]), inst.uses, i);
      KnownOnEntry(p, start, ds[0], ds[1], i + 1, inst.op, inst.uses, n);
    } else {
      KnownAlong(p, t, start, blocks, ds, i, j, m - 1, n);
      DoneNothing(p, ds[m - 1], ds[m]);
      KnownOnEntry(p, start, ds[m - 1], ds[m], 0, inst.op, inst.uses, n);
    }
  }

  lemma LearnAt(t: Tables, insts: seq<Inst>, i: nat)
    requires Issued(t) && i < |insts| && insts[i].pure && insts[i].defs != []
    requires Unwritten(insts, insts[i].uses, i, |insts|)
    ensures NumberedAt(t, insts, i).value.Some?
    ensures Knows(TablesAt(t, insts, i + 1), insts[i].op, insts[i].uses, NumberedAt(t, insts, i).value.value)
  {
    hide NumberInst, Knows;
    NumberSpan(t, insts, i, i);
    LearnExpression(TablesAt(t, insts, i), insts[i]);
  }

  lemma UnwrittenLater(insts: seq<Inst>, vs: seq<Var>, i: nat)
    requires i < |insts| && Unwritten(insts, vs, i, |insts|)
    ensures Unwritten(insts, vs, i + 1, |insts|)
  {
  }

  lemma DoneNothing(p: Cfg, d: BlockId, y: BlockId)
    ensures DoneFirst(p, d, y, 0)
  {
  }

  /** Down the dominator tree the walk finds every such repetition. */
  lemma RepeatFound(p: Cfg, t: DomTree, start: Start, blocks: map<BlockId, BlockValueNumbers>, ds: seq<BlockId>, i: nat,
                    j: nat)
    requires TreeNumbered(p, t, start, blocks) && Repeats(p, t, ds, i, j)
    ensures Found(blocks, ds[0], i, ds[|ds| - 1], j)
  {
    hide NoSideWrites, DoneFirst, EntryFrom, Knows, TreeNumbered, IsChild, NumberInst, Unwritten, Issued;
    var d, y := ds[0], ds[|ds| - 1];
    assert IsChild(t, ds[0], ds[0 + 1]);
    ChildHanded(p, t, start, blocks, ds[0], ds[1]);
    LearnAt(start.at[d], Insts(p, d), i);
    var n := NumberedAt(start.at[d], Insts(p, d), i).value.value;
    KnownAlong(p, t, start, blocks, ds, i, j, |ds| - 1, n);
    assert IsChild(t, ds[|ds| - 2], ds[|ds| - 2 + 1]);
    ChildHanded(p, t, start, blocks, ds[|ds| - 2], y);
    StaysKnown(start.at[y], Insts(p, y), 0, j, Insts(p, d)[i].op, Insts(p, d)[i].uses, n);
    KnownIsRedundant(TablesAt(start.at[y], Insts(p, y), j), Insts(p, y)[j], n);
  }

  /** What the finished walk says of one block of the tree. */
  lemma {:induction false} InTree(p: Cfg, t: DomTree, start: Start, blocks: map<BlockId, BlockValueNumbers>, b: BlockId)
    requires TreeOk(p, t) && TreeNumbered(p, t, start, blocks) && b in Blocks(t)
    ensures BlockNumbered(p, start, blocks, b)
    ensures b != t.block ==>
              && b in start.idom && Handed(p, start, start.idom[b], b)
              && start.idom[b] != b && BlockDominates(p, start.idom[b], b)
    decreases t
  {
    hide BlockDominates, BlockNumbered, EntryFrom;
    if b != t.block {
      var c :| c in t.children && b in Blocks(c);
      var i :| 0 <= i < |t.children| && t.children[i] == c;
      InTree(p, c, start, blocks, b);
      RootOutside(p, t, i);
    }
  }

  lemma StrictDominatorReachable(p: Cfg, d: BlockId, b: BlockId)
    requires BlockDominates(p, d, b) && d != b
    ensures ReachableBlock(p, d) && ReachableBlock(p, b)
  {
    var t :| IsTrailTo(p, t, p.entry, b);
    var s := CutAt(p, t, d);
    assert IsTrailTo(p, s, p.entry, d);
  }

  /** A numbering of all reachable blocks, listed as the pass returns it. */
  ghost predicate IsNumbering(p: Cfg, start: Start, blocks: map<BlockId, BlockValueNumbers>) {
    && NumberingOk(p, start) && start.at.Keys == blocks.Keys
    && (forall b {:trigger BlockNumbered(p, start, blocks, b)} :: b in blocks ==> BlockNumbered(p, start, blocks, b))
    && (forall b {:trigger ReachableBlock(p, b)} :: ReachableBlock(p, b) ==> b in blocks)
  }

  /** The pass: one walk over the dominator tree with one set of tables. */
  method Compute(p: Cfg, t: DomTree) returns (blocks: map<BlockId, BlockValueNumbers>, count: VN, ghost start: Start)
    requires p.WellFormed() && TreeOk(p, t) && t.block == p.entry && forall b :: ReachableBlock(p, b) ==> b in Blocks(t)
    ensures IsNumbering(p, start, blocks) && blocks.Keys == Blocks(t) && AllBelow(blocks, count)
    ensures forall b :: b in blocks ==> FindsRepeats(Insts(p, b), blocks[b])
    ensures forall ds, i, j {:trigger Repeats(p, t, ds, i, j)} ::
              Repeats(p, t, ds, i, j) ==> Found(blocks, ds[0], i, ds[|ds| - 1], j)
  {
    var tables := new NumberingTables(0);
    var reached := Reach(p, {p.entry}, None);
    forall b ensures b in reached <==> ReachableBlock(p, b) {
      ReachesByTrail(p, None, b);
    }
    blocks, start := NumberSubtree(p, t, None, None, reached, tables, map[], Start(map[], map[]));
    WalkIsNumbering(p, t, start, blocks);
    WalkFindsRepeats(p, t, start, blocks);
    count := tables.next;
  }

  lemma WalkFindsRepeats(p: Cfg, t: DomTree, start: Start, blocks: map<BlockId, BlockValueNumbers>)
    requires TreeNumbered(p, t, start, blocks) && IsNumbering(p, start, blocks)
    ensures forall b :: b in blocks ==> FindsRepeats(Insts(p, b), blocks[b])
    ensures forall ds, i, j {:trigger Repeats(p, t, ds, i, j)} ::
              Repeats(p, t, ds, i, j) ==> Found(blocks, ds[0], i, ds[|ds| - 1], j)
  {
    hide FindsRepeats, Found, TreeNumbered, NumberingOk, NumbersOk;
    forall b | b in blocks ensures FindsRepeats(Insts(p, b), blocks[b]) {
      assert BlockNumbered(p, start, blocks, b);
      BlockRepeats(start.at[b], Insts(p, b), blocks[b]);
    }
    forall ds, i, j | Repeats(p, t, ds, i, j) ensures Found(blocks, ds[0], i, ds[|ds| - 1], j) {
      RepeatFound(p, t, start, blocks, ds, i, j);
    }
  }

  lemma WalkIsNumbering(p: Cfg, t: DomTree, start: Start, blocks: map<BlockId, BlockValueNumbers>)
    requires TreeOk(p, t) && t.block == p.entry && forall b :: ReachableBlock(p, b) ==> b in Blocks(t)
    requires TreeNumbered(p, t, start, blocks) && Within(Start(map[], map[]), map[], start, blocks, Blocks(t))
    requires p.entry in start.at && start.at[p.entry].vars == map[] && start.at[p.entry].exprs == map[]
    ensures IsNumbering(p, start, blocks) && blocks.Keys == Blocks(t)
  {
    forall b | b in Blocks(t) ensures BlockNumbered(p, start, blocks, b) {
      InTree(p, t, start, blocks, b);
    }
    forall y | ReachableBlock(p, y) && y != p.entry ensures HandedDown(p, start, y) {
      InTree(p, t, start, blocks, y);
      StrictDominatorReachable(p, start.idom[y], y);
    }
    assert blocks.Keys == Blocks(t) by {
      assert forall b :: b in Blocks(t) ==> BlockNumbered(p, start, blocks, b);
    }
    assert start.at.Keys == Blocks(t) by {
      assert forall b :: b in Blocks(t) ==> BlockNumbered(p, start, blocks, b);
    }
  }

  /** The pass is sound. Each instruction it lists as redundant at a reachable point has one other instruction with the
      same value number that is not listed, that every run to the point has executed, and whose last value is the one
      the redundant instruction computes. */
  lemma ListedRedundantSound(p: Cfg, start: Start, blocks: map<BlockId, BlockValueNumbers>, sem: Semantics, f: Operator,
                             at: Pos)
    returns (a: Pos)
    requires p.WellFormed() && p.Contracts() && AllDeterministic(p, sem, f) && IsNumbering(p, start, blocks)
    requires ReachablePos(p, at) && at.block in blocks && at.idx in blocks[at.block].redundant
    ensures AtInst(p, at) && AtInst(p, a) && a.block in blocks && a.idx !in blocks[a.block].redundant
    ensures at.idx < |blocks[at.block].instVn| && a.idx < |blocks[a.block].instVn|
    ensures blocks[a.block].instVn[a.idx] == blocks[at.block].instVn[at.idx] != None
    ensures forall r :: IsRun(p, r) && r.at == at ==>
              && Executed(r, a)
              && f(InstAt(p, at).op, ReadAll(StoreOf(p, sem, r), InstAt(p, at).uses)) == LastValue(p, sem, f, r, a)
  {
    assert BlockNumbered(p, start, blocks, at.block);
    forall y | y in start.at ensures Issued(start.at[y]) {
      assert BlockNumbered(p, start, blocks, y);
    }
    a := GlobalNumberingSound(p, start, sem, f, at);
    assert BlockNumbered(p, start, blocks, a.block);
  }

  /** A block on its own. */
  function Alone(p: Cfg, b: BlockId): Cfg {
    Cfg(b, b + 1, map[b := Insts(p, b)], map[], map[b := []], map[b := []])
  }

  /** Numbering one block locally is numbering the program that consists of it, so the same soundness applies. */
  lemma LocalIsGlobal(p: Cfg, b: BlockId, first: VN, result: BlockValueNumbers)
    requires NumbersOk(Tables(map[], map[], first), Insts(p, b), |Insts(p, b)|, result)
    ensures Alone(p, b).WellFormed()
    ensures IsNumbering(Alone(p, b), Start(map[], map[b := Tables(map[], map[], first)]), map[b := result])
  {
    var q, start := Alone(p, b), Start(map[], map[b := Tables(map[], map[], first)]);
    forall y | ReachableBlock(q, y) ensures y == b {
      var t :| IsTrailTo(q, t, q.entry, y);
      TrailInside(q, t);
    }
    assert BlockNumbered(q, start, map[b := result], b);
  }
}
