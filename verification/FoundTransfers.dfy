/** What a pass must find, rewrite away and delete, told in the transfers themselves and in runs. */
module FoundTransfers {
  import opened Wrappers
  import opened Program
  import opened Trails
  import opened Dominance
  import opened Pruning
  import opened Backward
  import opened RowTransfer
  import opened Substitutions
  import opened ChainResolver
  import opened PropagationMeaning

  /** A copy moves its one operand; an alias set, in the pass for alias sets, moves its pairs. */
  predicate Moves(inst: Inst, kind: Propagation, dst: Var, src: Var) {
    match inst.transfer
    case NoTransfer => false
    case Copy => inst.defs == [dst] && inst.uses == [src]
    case Aliases(definitions, sources) =>
      && kind == AliasSets && |definitions| == |sources|
      && exists i :: 0 <= i < |definitions| && definitions[i] == dst && sources[i] == src
  }

  predicate WrittenAt(p: Cfg, v: Var, a: Pos) { AtInst(p, a) && v in InstAt(p, a).defs }

  /** The instruction at `a` writes `v`, once, and no other instruction writes it. */
  ghost predicate WrittenOnlyAt(p: Cfg, v: Var, a: Pos) {
    WrittenAt(p, v, a) && multiset(InstAt(p, a).defs)[v] == 1 && forall b :: b != a ==> !WrittenAt(p, v, b)
  }

  /** The transfer at `a` moves `src` to `dst`, control gets there, nothing else writes `dst`, `src` is never written or
      written once in every run before, and whatever else reads `dst` is reached, and only after the transfer. */
  ghost predicate Replaceable(p: Cfg, kind: Propagation, a: Pos, dst: Var, src: Var) {
    && ReachablePos(p, a) && AtInst(p, a) && Moves(InstAt(p, a), kind, dst, src) && dst != src
    && WrittenOnlyAt(p, dst, a)
    && ((forall b :: !WrittenAt(p, src, b)) || exists site :: WrittenOnlyAt(p, src, site) && AlwaysExecuted(p, site, a))
    && (forall use :: UsedAt(p, dst, use) && use != a ==> ReachablePos(p, use) && AlwaysExecuted(p, a, use))
  }

  lemma {:induction false} CountIsMultiplicity(vs: seq<Var>, v: Var)
    ensures Count(vs, v) == multiset(vs)[v]
  {
    if vs != [] {
      CountIsMultiplicity(vs[..|vs| - 1], v);
      assert vs == vs[..|vs| - 1] + [vs[|vs| - 1]];
    }
  }

  lemma SoleIsOnly(p: Cfg, v: Var, a: Pos)
    ensures SoleDefinition(p, v, a) <==> WrittenOnlyAt(p, v, a)
  {
    forall b ensures Count(DefsAt(p, b), v) > 0 <==> WrittenAt(p, v, b) {
      CountIn(DefsAt(p, b), v);
    }
    CountIsMultiplicity(DefsAt(p, a), v);
  }

  lemma NeverIsUnwritten(p: Cfg, v: Var)
    ensures NeverDefined(p, v) <==> forall b :: !WrittenAt(p, v, b)
  {
    forall b ensures Count(DefsAt(p, b), v) > 0 <==> WrittenAt(p, v, b) {
      CountIn(DefsAt(p, b), v);
    }
  }

  lemma MovesIsPair(inst: Inst, kind: Propagation, dst: Var, src: Var)
    requires inst.Ok()
    ensures Moves(inst, kind, dst, src) <==> Selected(inst, kind) && HasPair(inst, dst, src)
  {
    if inst.transfer.Copy? {
      assert inst.Targets()[0] == inst.defs[0] && inst.Sources()[0] == inst.uses[0];
    } else if inst.transfer.Aliases? {
      assert inst.IsTransfer() ==> inst.Targets() == inst.transfer.definitions && inst.Sources() == inst.transfer.sources;
    }
  }

  lemma BlockIsPos(p: Cfg, a: Pos)
    requires p.WellFormed() && InRange(p, a)
    ensures ReachableBlock(p, a.block) <==> ReachablePos(p, a)
  {
    if ReachableBlock(p, a.block) {
      var t :| IsTrailTo(p, t, p.entry, a.block);
      var r := FirstEntry(p, t);
      r := Straight(p, r, a.idx);
    }
    if ReachablePos(p, a) {
      var r :| IsRun(p, r) && r.at == a;
      var t := RunTrail(p, r);
    }
  }

  /** The pass takes exactly the replaceable pairs. */
  lemma AdmittedExact(p: Cfg, kind: Propagation, a: Pos, dst: Var, src: Var)
    requires p.WellFormed() && p.Contracts()
    ensures Admitted(p, kind, dst, Substitution(src, a)) <==> Replaceable(p, kind, a, dst, src)
  {
    hide Moves, Selected, HasPair, SoleDefinition, NeverDefined, WrittenOnlyAt, Dominates, AlwaysExecuted, Cfg.WellFormed;
    if AtInst(p, a) && InRange(p, a) {
      assert InstAt(p, a).Ok();
      MovesIsPair(InstAt(p, a), kind, dst, src);
      BlockIsPos(p, a);
      SoleIsOnly(p, dst, a);
      NeverIsUnwritten(p, src);
      forall site ensures SoleDefinition(p, src, site) <==> WrittenOnlyAt(p, src, site) {
        SoleIsOnly(p, src, site);
      }
      if ReachablePos(p, a) {
        SourceExact(p, a, src);
        UsesExact(p, a, dst);
      }
    }
    if ReachablePos(p, a) {
      var r :| IsRun(p, r) && r.at == a;
      RunInRange(p, r);
    }
  }

  lemma SourceExact(p: Cfg, a: Pos, src: Var)
    requires p.WellFormed() && InRange(p, a) && ReachablePos(p, a)
    ensures (exists site :: SoleDefinition(p, src, site) && Dominates(p, site, a)) <==>
            exists site :: WrittenOnlyAt(p, src, site) && AlwaysExecuted(p, site, a)
  {
    hide Dominates, AlwaysExecuted, SoleDefinition;
    forall site ensures SoleDefinition(p, src, site) && Dominates(p, site, a) <==>
                        WrittenOnlyAt(p, src, site) && AlwaysExecuted(p, site, a)
    {
      SoleIsOnly(p, src, site);
      if WrittenOnlyAt(p, src, site) {
        DominanceExact(p, site, a);
      }
    }
  }

  lemma UsesExact(p: Cfg, a: Pos, dst: Var)
    requires p.WellFormed() && InRange(p, a) && AtInst(p, a) && ReachablePos(p, a)
    ensures (forall use {:trigger UsesAt(p, use)} :: dst in UsesAt(p, use) ==> use == a || Dominates(p, a, use)) <==>
            forall use :: UsedAt(p, dst, use) && use != a ==> ReachablePos(p, use) && AlwaysExecuted(p, a, use)
  {
    hide Dominates, AlwaysExecuted, ReachablePos;
    forall use | UsedAt(p, dst, use) && use != a
      ensures Dominates(p, a, use) <==> ReachablePos(p, use) && AlwaysExecuted(p, a, use)
    {
      UseExact(p, a, use);
    }
    forall use ensures dst in UsesAt(p, use) <==> UsedAt(p, dst, use) {
    }
  }

  lemma UseExact(p: Cfg, a: Pos, use: Pos)
    requires p.WellFormed() && InRange(p, a) && AtInst(p, a) && ReachablePos(p, a) && AtInst(p, use)
    ensures Dominates(p, a, use) <==> ReachablePos(p, use) && AlwaysExecuted(p, a, use)
  {
    BlockIsPos(p, a);
    BlockIsPos(p, use);
    if ReachablePos(p, use) {
      DominanceExact(p, a, use);
    }
  }

  /** Every write of the transfer at `a` is replaceable, no seed names one, and the transfer reads none of them. */
  ghost predicate Clearable(p: Cfg, kind: Propagation, seeds: Seeds, a: Pos) {
    && AtInst(p, a) && InstAt(p, a).defs != []
    && forall dst :: dst in InstAt(p, a).defs ==>
         && (exists src :: Replaceable(p, kind, a, dst, src))
         && !UsedAt(p, dst, a)
         && forall b :: b in seeds ==> dst !in seeds[b]
  }

  /** After the rewrite nothing but the transfer itself reads its destination. */
  lemma RewriteClears(p: Cfg, kind: Propagation, table: Table, resolved: Table, dst: Var, x: Pos)
    requires p.WellFormed() && AllAdmitted(p, kind, table) && Resolves(table, resolved) && dst in table
    requires UsedAt(Rewritten(p, resolved), dst, x)
    ensures x == table[dst].definition && UsedAt(p, dst, x)
  {
    hide AllAdmitted, Acyclic, Cfg.WellFormed;
    AdmittedAcyclic(p, kind, table);
    RewriteLengths(p, resolved, x.block);
    RewriteAt(p, resolved, x);
    forall u | u in resolved ensures resolved[u].source !in table {
      assert Ends(table, u, resolved[u].source);
    }
    var uses := InstAt(p, x).uses;
    var i :| 0 <= i < |uses| && Rename(resolved, x, uses[i]) == dst;
  }

  /** Which transfers go: those of the pass's own kind none of whose writes matters after them. */
  lemma DeletedExact(q: Cfg, kind: Propagation, seeds: Seeds, a: Pos)
    requires q.WellFormed() && q.Contracts()
    ensures a in DeadTransfers(q, kind, seeds) <==>
              && AtInst(q, a)
              && (match InstAt(q, a).transfer
                  case NoTransfer => false
                  case Copy => true
                  case Aliases(definitions, sources) =>
                    kind == AliasSets && definitions != [] && |definitions| == |sources|)
              && forall d :: d in InstAt(q, a).defs ==> !Matters(q, seeds, AllForced(q), After(a), d)
  {
    if AtInst(q, a) {
      assert InstAt(q, a).Ok();
    }
  }

  /** Deleting instructions leaves only instructions that were there. */
  lemma PrunedFrom(p: Cfg, dead: set<Pos>, x: Pos) returns (y: Pos)
    requires AtInst(Prune(p, dead), x)
    ensures AtInst(p, y) && y !in dead && InstAt(p, y) == InstAt(Prune(p, dead), x)
  {
    var at := SurvivorFrom(p, dead, x.block, |Insts(p, x.block)|, x.idx);
    y := Pos(x.block, at);
  }

  lemma ClearsSomething(p: Cfg, kind: Propagation, seeds: Seeds, a: Pos) returns (dst: Var, src: Var)
    requires Clearable(p, kind, seeds, a)
    ensures Replaceable(p, kind, a, dst, src)
  {
    hide Replaceable;
    dst := InstAt(p, a).defs[0];
    assert dst in InstAt(p, a).defs;
    src :| Replaceable(p, kind, a, dst, src);
  }

  /** A transfer whose writes are all cleared away is deleted. */
  lemma ClearedIsDead(p: Cfg, kind: Propagation, seeds: Seeds, table: Table, resolved: Table, a: Pos)
    requires p.WellFormed() && p.Contracts() && AllAdmitted(p, kind, table) && Resolves(table, resolved)
    requires Clearable(p, kind, seeds, a)
    requires forall dst, src {:trigger Replaceable(p, kind, a, dst, src)} ::
               Replaceable(p, kind, a, dst, src) ==> dst in table && table[dst] == Substitution(src, a)
    ensures a in DeadTransfers(Rewritten(p, resolved), kind, seeds)
  {
    hide AllAdmitted, Resolves, Replaceable, DeadTransfers, Cfg.WellFormed;
    var q := Rewritten(p, resolved);
    RewriteContracts(p, resolved);
    RewriteAt(p, resolved, a);
    forall d | d in InstAt(q, a).defs ensures !Matters(q, seeds, AllForced(q), After(a), d) {
      var src :| Replaceable(p, kind, a, d, src);
      forall x ensures !UsedAt(q, d, x) {
        if UsedAt(q, d, x) {
          RewriteClears(p, kind, table, resolved, d, x);
        }
      }
      forall c | IsChain(q, seeds, AllForced(q), c) && c.v == d ensures false {
        UnreadNeverMatters(q, seeds, AllForced(q), c);
      }
    }
    assert InstAt(p, a).Ok();
    var d, src := ClearsSomething(p, kind, seeds, a);
    ReplaceableSelected(p, kind, a, d, src);
    RewriteKind(InstAt(p, a), a, resolved);
    DeletedExact(q, kind, seeds, a);
  }

  lemma ReplaceableSelected(p: Cfg, kind: Propagation, a: Pos, dst: Var, src: Var)
    requires Replaceable(p, kind, a, dst, src)
    ensures match InstAt(p, a).transfer
            case NoTransfer => false
            case Copy => true
            case Aliases(definitions, sources) => kind == AliasSets && definitions != [] && |definitions| == |sources|
  {
  }

  lemma RewriteKind(inst: Inst, at: Pos, table: Table)
    ensures match inst.transfer
            case NoTransfer => RewriteInst(inst, at, table).transfer == NoTransfer
            case Copy => RewriteInst(inst, at, table).transfer == Copy
            case Aliases(definitions, sources) =>
              && RewriteInst(inst, at, table).transfer.Aliases?
              && RewriteInst(inst, at, table).transfer.definitions == definitions
              && |RewriteInst(inst, at, table).transfer.sources| == |sources|
  {
  }

  /** Nothing but the transfer itself still reads a replaceable destination. */
  ghost predicate ReadersMoved(p: Cfg, kind: Propagation, q: Cfg) {
    forall a, dst, src {:trigger Replaceable(p, kind, a, dst, src)} :: Replaceable(p, kind, a, dst, src) ==>
      forall x :: UsedAt(q, dst, x) ==> UsedAt(p, dst, a) && WrittenAt(q, dst, x)
  }

  /** Nothing writes what a clearable transfer wrote. */
  ghost predicate TransfersGone(p: Cfg, kind: Propagation, seeds: Seeds, q: Cfg) {
    forall a {:trigger Clearable(p, kind, seeds, a)} :: Clearable(p, kind, seeds, a) ==>
      forall dst, x :: dst in InstAt(p, a).defs ==> !WrittenAt(q, dst, x)
  }

  lemma ReadersMove(p: Cfg, kind: Propagation, seeds: Seeds, table: Table, resolved: Table, a: Pos, dst: Var, src: Var,
                    x: Pos)
    requires p.WellFormed() && p.Contracts() && AllAdmitted(p, kind, table) && Resolves(table, resolved)
    requires Replaceable(p, kind, a, dst, src) && dst in table && table[dst] == Substitution(src, a)
    requires UsedAt(Prune(Rewritten(p, resolved), DeadTransfers(Rewritten(p, resolved), kind, seeds)), dst, x)
    ensures UsedAt(p, dst, a)
    ensures WrittenAt(Prune(Rewritten(p, resolved), DeadTransfers(Rewritten(p, resolved), kind, seeds)), dst, x)
  {
    hide AllAdmitted, Resolves, DeadTransfers, Prune, Cfg.WellFormed;
    var y := PrunedFrom(Rewritten(p, resolved), DeadTransfers(Rewritten(p, resolved), kind, seeds), x);
    RewriteClears(p, kind, table, resolved, dst, y);
    RewriteAt(p, resolved, y);
  }

  lemma RewriteKeepsWrites(p: Cfg, table: Table, v: Var, y: Pos)
    ensures WrittenAt(Rewritten(p, table), v, y) <==> WrittenAt(p, v, y)
  {
    RewriteLengths(p, table, y.block);
    if AtInst(p, y) {
      RewriteAt(p, table, y);
    }
  }

  lemma TransferGone(p: Cfg, kind: Propagation, seeds: Seeds, table: Table, resolved: Table, a: Pos, dst: Var, x: Pos)
    requires p.WellFormed() && p.Contracts() && AllAdmitted(p, kind, table) && Resolves(table, resolved)
    requires forall dst, src {:trigger Replaceable(p, kind, a, dst, src)} ::
               Replaceable(p, kind, a, dst, src) ==> dst in table && table[dst] == Substitution(src, a)
    requires Clearable(p, kind, seeds, a) && dst in InstAt(p, a).defs
    ensures !WrittenAt(Prune(Rewritten(p, resolved), DeadTransfers(Rewritten(p, resolved), kind, seeds)), dst, x)
  {
    hide AllAdmitted, Resolves, DeadTransfers, Prune, Cfg.WellFormed;
    var q := Rewritten(p, resolved);
    ClearedIsDead(p, kind, seeds, table, resolved, a);
    var src :| Replaceable(p, kind, a, dst, src);
    if WrittenAt(Prune(q, DeadTransfers(q, kind, seeds)), dst, x) {
      var y := PrunedFrom(q, DeadTransfers(q, kind, seeds), x);
      RewriteKeepsWrites(p, resolved, dst, y);
    }
  }

  /** The pass finds every replaceable pair and no other, moves the readers of each destination to its source, and
      deletes every transfer nothing reads any more. */
  lemma PropagationFinds(p: Cfg, kind: Propagation, seeds: Seeds, table: Table, resolved: Table)
    requires p.WellFormed() && p.Contracts() && AllAdmitted(p, kind, table) && Resolves(table, resolved)
    requires forall dst, sub {:trigger Admitted(p, kind, dst, sub)} ::
               Admitted(p, kind, dst, sub) ==> dst in table && table[dst] == sub
    ensures forall a, dst, src {:trigger Replaceable(p, kind, a, dst, src)} ::
              Replaceable(p, kind, a, dst, src) <==> dst in table && table[dst] == Substitution(src, a)
    ensures var q := Prune(Rewritten(p, resolved), DeadTransfers(Rewritten(p, resolved), kind, seeds));
            ReadersMoved(p, kind, q) && TransfersGone(p, kind, seeds, q)
  {
    hide Admitted, Resolves, Replaceable, DeadTransfers, Prune, Cfg.WellFormed, UsedAt, WrittenAt;
    forall a, dst, src
      ensures Replaceable(p, kind, a, dst, src) <==> dst in table && table[dst] == Substitution(src, a)
    {
      AdmittedExact(p, kind, a, dst, src);
      assert dst in table ==> Admitted(p, kind, dst, table[dst]);
    }
    var q := Prune(Rewritten(p, resolved), DeadTransfers(Rewritten(p, resolved), kind, seeds));
    forall a, dst, src, x | Replaceable(p, kind, a, dst, src) && UsedAt(q, dst, x)
      ensures UsedAt(p, dst, a) && WrittenAt(q, dst, x)
    {
      ReadersMove(p, kind, seeds, table, resolved, a, dst, src, x);
    }
    forall a | Clearable(p, kind, seeds, a) ensures forall dst, x :: dst in InstAt(p, a).defs ==> !WrittenAt(q, dst, x) {
      ClearsGone(p, kind, seeds, table, resolved, a);
    }
  }

  lemma ClearsGone(p: Cfg, kind: Propagation, seeds: Seeds, table: Table, resolved: Table, a: Pos)
    requires p.WellFormed() && p.Contracts() && AllAdmitted(p, kind, table) && Resolves(table, resolved)
    requires forall dst, src {:trigger Replaceable(p, kind, a, dst, src)} ::
               Replaceable(p, kind, a, dst, src) ==> dst in table && table[dst] == Substitution(src, a)
    requires Clearable(p, kind, seeds, a)
    ensures var q := Prune(Rewritten(p, resolved), DeadTransfers(Rewritten(p, resolved), kind, seeds));
            forall dst, x :: dst in InstAt(p, a).defs ==> !WrittenAt(q, dst, x)
  {
    hide AllAdmitted, Resolves, Replaceable, DeadTransfers, Prune, Cfg.WellFormed, WrittenAt;
    var q := Prune(Rewritten(p, resolved), DeadTransfers(Rewritten(p, resolved), kind, seeds));
    forall dst, x | dst in InstAt(p, a).defs ensures !WrittenAt(q, dst, x) {
      TransferGone(p, kind, seeds, table, resolved, a, dst, x);
    }
  }

  /** With nothing to replace there is nothing to move or to delete. */
  lemma NothingFound(p: Cfg, kind: Propagation, seeds: Seeds, table: Table)
    requires table.Keys == {}
    requires forall a, dst, src {:trigger Replaceable(p, kind, a, dst, src)} ::
               Replaceable(p, kind, a, dst, src) <==> dst in table && table[dst] == Substitution(src, a)
    ensures table == map[] && ReadersMoved(p, kind, p) && TransfersGone(p, kind, seeds, p)
  {
    hide Replaceable;
    forall a | Clearable(p, kind, seeds, a) ensures false {
      var dst, src := ClearsSomething(p, kind, seeds, a);
    }
  }

  /** A copy into 1 of what 0 holds, and a reader of 1. */
  function CopyAndReader(): Cfg {
    Cfg(0, 1, map[0 := [Inst(1, [0], [1], false, false, false, Copy), Inst(2, [1], [2], false, false, false, NoTransfer)]],
        map[], map[0 := []], map[0 := []])
  }

  lemma CopyReaches()
    ensures ReachablePos(CopyAndReader(), Pos(0, 0)) && ReachablePos(CopyAndReader(), Pos(0, 1))
    ensures AlwaysExecuted(CopyAndReader(), Pos(0, 0), Pos(0, 1))
  {
    var p, r := CopyAndReader(), Enter(Pos(0, 0), map[]);
    assert IsRun(p, r) && IsRun(p, Step(r, Pos(0, 1), 0));
    forall q | IsRun(p, q) && q.at == Pos(0, 1) ensures Executed(q, Pos(0, 0)) {
      ExecutedSoFar(p, q, Pos(0, 0));
    }
  }

  lemma CopyReplaceable()
    ensures Replaceable(CopyAndReader(), Copies, Pos(0, 0), 1, 0)
  {
    hide ReachablePos, AlwaysExecuted;
    var p := CopyAndReader();
    CopyReaches();
    forall b ensures AtInst(p, b) <==> b == Pos(0, 0) || b == Pos(0, 1) {
    }
    assert InstAt(p, Pos(0, 0)).defs == [1] && InstAt(p, Pos(0, 1)).defs == [2];
    assert multiset(InstAt(p, Pos(0, 0)).defs) == multiset{1};
  }

  /** A pass for copies finds the copy and, when only 2 leaves the block, clears it away. */
  lemma CopyFound()
    ensures CopyAndReader().WellFormed() && CopyAndReader().Contracts()
    ensures Replaceable(CopyAndReader(), Copies, Pos(0, 0), 1, 0)
    ensures Clearable(CopyAndReader(), Copies, map[0 := [2]], Pos(0, 0))
  {
    hide Replaceable;
    var p := CopyAndReader();
    CopyReplaceable();
    assert InstAt(p, Pos(0, 0)).defs == [1] && InstAt(p, Pos(0, 0)).uses == [0];
  }
}
