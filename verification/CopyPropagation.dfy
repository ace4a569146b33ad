/** What rewriting operands and deleting unread transfers does to a program, and why no run can tell. */
module PropagationMeaning {
  import opened Wrappers
  import opened Program
  import opened Trails
  import opened Dominance
  import opened Pruning
  import opened Backward
  import opened RowTransfer
  import opened Substitutions
  import opened ChainResolver
  import opened Effects

  /** A transfer's own reads come before its writes and stay as they are. */
  function Rename(table: Table, at: Pos, v: Var): Var {
    if v in table && table[v].definition != at then table[v].source else v
  }

  function RenameAll(table: Table, at: Pos, vs: seq<Var>): seq<Var> {
    seq(|vs|, i requires 0 <= i < |vs| => Rename(table, at, vs[i]))
  }

  function RewriteInst(inst: Inst, at: Pos, table: Table): Inst {
    inst.(uses := RenameAll(table, at, inst.uses),
          transfer := match inst.transfer
                      case Aliases(definitions, sources) => Aliases(definitions, RenameAll(table, at, sources))
                      case other => other)
  }

  function RewriteBlock(insts: seq<Inst>, b: BlockId, table: Table): seq<Inst> {
    seq(|insts|, i requires 0 <= i < |insts| => RewriteInst(insts[i], Pos(b, i), table))
  }

  function Rewritten(p: Cfg, table: Table): Cfg {
    p.(blocks := map b | b in p.blocks :: RewriteBlock(p.blocks[b], b, table))
  }

  /** `resolved` is `table` with every source moved to the end of its chain. */
  ghost predicate Resolves(table: Table, resolved: Table) {
    && resolved.Keys == table.Keys
    && (forall d :: d in table ==> resolved[d].definition == table[d].definition)
    && (forall d :: d in table ==> Ends(table, d, resolved[d].source))
  }

  lemma RewriteAt(p: Cfg, table: Table, a: Pos)
    requires AtInst(p, a)
    ensures AtInst(Rewritten(p, table), a) && InstAt(Rewritten(p, table), a) == RewriteInst(InstAt(p, a), a, table)
  {
  }

  lemma RewriteLengths(p: Cfg, table: Table, b: BlockId)
    ensures |Insts(Rewritten(p, table), b)| == |Insts(p, b)| && Throws(Rewritten(p, table), b) == Throws(p, b)
  {
    var q := Rewritten(p, table);
    forall i | 0 <= i < |Insts(p, b)| ensures Insts(q, b)[i].mayUnwind == Insts(p, b)[i].mayUnwind {
      RewriteAt(p, table, Pos(b, i));
    }
  }

  lemma RewriteContracts(p: Cfg, table: Table)
    requires p.WellFormed() && p.Contracts()
    ensures Rewritten(p, table).WellFormed() && Rewritten(p, table).Contracts()
  {
    var q := Rewritten(p, table);
    forall b, i | b in q.blocks && 0 <= i < |q.blocks[b]| ensures q.blocks[b][i].Ok() {
      assert p.blocks[b][i].Ok();
      RewriteInstOk(p.blocks[b][i], Pos(b, i), table);
    }
  }

  lemma RewriteInstOk(inst: Inst, at: Pos, table: Table)
    requires inst.Ok()
    ensures RewriteInst(inst, at, table).Ok()
  {
    var renamed := RewriteInst(inst, at, table);
    if inst.transfer.Aliases? {
      RenameCovers(table, at, inst.transfer.sources, inst.uses);
    }
    assert renamed.IsTransfer() == inst.IsTransfer();
    forall v | renamed.IsTransfer() && v in renamed.Sources() ensures v in renamed.uses {
      assert inst.transfer.Aliases? ==> v in Elems(RenameAll(table, at, inst.transfer.sources));
    }
  }

  lemma RenameCovers(table: Table, at: Pos, vs: seq<Var>, ws: seq<Var>)
    requires Elems(vs) <= Elems(ws)
    ensures Elems(RenameAll(table, at, vs)) <= Elems(RenameAll(table, at, ws))
  {
    forall v | v in RenameAll(table, at, vs) ensures v in RenameAll(table, at, ws) {
      var i :| 0 <= i < |vs| && Rename(table, at, vs[i]) == v;
      assert vs[i] in Elems(vs);
      var j :| 0 <= j < |ws| && ws[j] == vs[i];
      assert RenameAll(table, at, ws)[j] == v;
    }
  }

  /** Rewriting operands moves no step of any run. */
  lemma RewriteMoves(p: Cfg, table: Table, a: Pos, b: Pos)
    ensures Next(Rewritten(p, table), a, b) <==> Next(p, a, b)
    ensures Execs(Rewritten(p, table), a, b) <==> Execs(p, a, b)
  {
    var q := Rewritten(p, table);
    RewriteLengths(p, table, a.block);
    if AtInst(p, a) {
      RewriteAt(p, table, a);
    }
    forall e | e in p.edges ensures LeavesVia(q, a, p.edges[e]) <==> LeavesVia(p, a, p.edges[e]) {
      RewriteLengths(p, table, p.edges[e].source);
    }
  }

  lemma {:induction false} RewriteRuns(p: Cfg, table: Table, r: Run)
    ensures IsRun(Rewritten(p, table), r) <==> IsRun(p, r)
  {
    if r.Step? {
      RewriteRuns(p, table, r.prev);
      RewriteMoves(p, table, r.prev.at, r.at);
    }
  }

  /** Where a rewritten operand is read, it holds what the original operand holds. */
  lemma OperandEqual(p: Cfg, kind: Propagation, sem: Semantics, table: Table, resolved: Table, r: Run, v: Var)
    requires p.WellFormed() && p.Contracts() && AllAdmitted(p, kind, table) && Resolves(table, resolved)
    requires IsRun(p, r) && AtInst(p, r.at) && v in InstAt(p, r.at).uses
    ensures Read(StoreOf(p, sem, r), Rename(resolved, r.at, v)) == Read(StoreOf(p, sem, r), v)
  {
    if v in table && table[v].definition != r.at {
      var sub := table[v];
      assert Admitted(p, kind, v, sub);
      assert v in UsesAt(p, r.at);
      DominatesAlways(p, sub.definition, r.at);
      assert Ends(table, v, resolved[v].source);
      var n: nat :| n >= 1 && Leads(table, v, resolved[v].source, n);
      ChainEqual(p, kind, sem, table, v, resolved[v].source, n, r);
    }
  }

  lemma SameReads(s: Store, vs: seq<Var>, ws: seq<Var>)
    requires |vs| == |ws| && forall i :: 0 <= i < |vs| ==> Read(s, vs[i]) == Read(s, ws[i])
    ensures ReadAll(s, vs) == ReadAll(s, ws)
  {
  }

  /** The rewritten instruction computes exactly what the original does. */
  lemma RewrittenExec(p: Cfg, kind: Propagation, sem: Semantics, table: Table, resolved: Table, r: Run, env: int)
    requires p.WellFormed() && p.Contracts() && AllAdmitted(p, kind, table) && Resolves(table, resolved)
    requires IsRun(p, r) && AtInst(p, r.at) && InRange(p, r.at)
    ensures var inst, s := InstAt(p, r.at), StoreOf(p, sem, r);
            var renamed := RewriteInst(inst, r.at, resolved);
            && ReadAll(s, renamed.uses) == ReadAll(s, inst.uses)
            && ExecInst(sem, renamed, s, env) == ExecInst(sem, inst, s, env)
  {
    hide AllAdmitted, Resolves, StoreOf, Cfg.WellFormed;
    var inst, s := InstAt(p, r.at), StoreOf(p, sem, r);
    var renamed := RewriteInst(inst, r.at, resolved);
    assert inst.Ok();
    forall v | v in inst.uses ensures Read(s, Rename(resolved, r.at, v)) == Read(s, v) {
      OperandEqual(p, kind, sem, table, resolved, r, v);
    }
    SameReads(s, inst.uses, renamed.uses);
    if inst.IsTransfer() {
      assert forall i :: 0 <= i < |inst.Sources()| ==> inst.Sources()[i] in inst.uses;
      SameReads(s, inst.Sources(), renamed.Sources());
    }
  }

  /** Every run of the program is a run of the rewritten one and ends in the same store. */
  lemma {:induction false} RewrittenStore(p: Cfg, kind: Propagation, sem: Semantics, table: Table, resolved: Table, r: Run)
    requires p.WellFormed() && p.Contracts() && AllAdmitted(p, kind, table) && Resolves(table, resolved) && IsRun(p, r)
    ensures StoreOf(Rewritten(p, resolved), sem, r) == StoreOf(p, sem, r)
  {
    if r.Step? {
      RewrittenStore(p, kind, sem, table, resolved, r.prev);
      RewriteMoves(p, resolved, r.prev.at, r.at);
      RunInRange(p, r.prev);
      if Execs(p, r.prev.at, r.at) {
        RewriteAt(p, resolved, r.prev.at);
        RewrittenExec(p, kind, sem, table, resolved, r.prev, r.env);
      } else if AtInst(p, r.prev.at) {
        RewriteAt(p, resolved, r.prev.at);
      }
    }
  }

  /** The transfers whose definitions nothing reads after them. */
  ghost function DeadTransfers(q: Cfg, kind: Propagation, seeds: Seeds): set<Pos> {
    set b, i | b in q.blocks && 0 <= i < |q.blocks[b]| && Selected(q.blocks[b][i], kind)
               && (forall d :: d in q.blocks[b][i].Targets() ==> !Matters(q, seeds, AllForced(q), Pos(b, i + 1), d)) ::
      Pos(b, i)
  }

  ghost function LiveAt(q: Cfg, seeds: Seeds): (Pos, Var) -> bool {
    (a, v) => Matters(q, seeds, AllForced(q), a, v)
  }

  /** Deleting unread transfers loses nothing that is live. */
  lemma TransfersKeepLive(q: Cfg, kind: Propagation, seeds: Seeds)
    requires q.WellFormed() && q.Contracts()
    ensures Quiet(q, DeadTransfers(q, kind, seeds)) && KeepsLive(q, DeadTransfers(q, kind, seeds), LiveAt(q, seeds))
  {
    var dead, live, forced := DeadTransfers(q, kind, seeds), LiveAt(q, seeds), AllForced(q);
    forall a | a in dead && AtInst(q, a) ensures !InstAt(q, a).mayUnwind {
      assert InstAt(q, a).Ok();
    }
    forall a, v | InRange(q, a) && AtInst(q, a) && live(After(a), v)
      ensures (a in dead ==> live(a, v) && v !in InstAt(q, a).defs) && (v !in InstAt(q, a).defs ==> live(a, v))
    {
      assert InstAt(q, a).Ok();
      if v !in InstAt(q, a).defs {
        MattersMove(q, seeds, forced, a, After(a), v);
      }
    }
    forall a, v | InRange(q, a) && AtInst(q, a) && a !in dead && v in InstAt(q, a).uses ensures live(a, v) {
      assert a in forced;
      MattersRead(q, seeds, forced, a, v);
    }
    forall a, b, v | InRange(q, a) && Crosses(q, a, b) && live(b, v) ensures live(a, v) {
      MattersMove(q, seeds, forced, a, b, v);
    }
  }

  /** Propagation preserves meaning. Along the same choices of edges the propagated program stops at the same
      surviving position; the surviving instruction there reads the same values, operand by operand, and at a
      block's end every variable the caller says leaves it holds the same value. */
  lemma PropagationPreserves(p: Cfg, kind: Propagation, seeds: Seeds, table: Table, resolved: Table, sem: Semantics,
                             r: Run)
    requires p.WellFormed() && p.Contracts() && AllAdmitted(p, kind, table) && Resolves(table, resolved) && IsRun(p, r)
    ensures var q := Rewritten(p, resolved);
            var dead := DeadTransfers(q, kind, seeds);
            var s, t := StoreOf(p, sem, r), StoreOf(Prune(q, dead), sem, PruneRun(q, dead, r));
            && InRange(p, r.at) && InRange(q, r.at)
            && IsRun(Prune(q, dead), PruneRun(q, dead, r)) && PruneRun(q, dead, r).at == Shift(q, dead, r.at)
            && (AtInst(p, r.at) && r.at !in dead ==>
                  var at := Shift(q, dead, r.at);
                  && AtInst(Prune(q, dead), at)
                  && InstAt(Prune(q, dead), at) == RewriteInst(InstAt(p, r.at), r.at, resolved)
                  && ReadAll(t, InstAt(Prune(q, dead), at).uses) == ReadAll(s, InstAt(p, r.at).uses))
            && (r.at.idx == |Insts(p, r.at.block)| && r.at.block in seeds ==>
                  forall v :: v in seeds[r.at.block] ==> Read(s, v) == Read(t, v))
  {
    var q := Rewritten(p, resolved);
    var dead, live := DeadTransfers(q, kind, seeds), LiveAt(q, seeds);
    RewriteContracts(p, resolved);
    RewriteRuns(p, resolved, r);
    RewrittenStore(p, kind, sem, table, resolved, r);
    TransfersKeepLive(q, kind, seeds);
    PruneRuns(q, dead, r);
    PruneSimulates(q, dead, live, sem, r);
    RewriteLengths(p, resolved, r.at.block);
    if AtInst(p, r.at) && r.at !in dead {
      SurvivorReads(p, kind, seeds, table, resolved, sem, r);
    }
    if r.at.idx == |Insts(p, r.at.block)| {
      forall v | v in Seed(seeds, r.at.block) ensures live(r.at, v) {
        MattersSeed(q, seeds, AllForced(q), r.at, v);
      }
    }
  }

  lemma SurvivorReads(p: Cfg, kind: Propagation, seeds: Seeds, table: Table, resolved: Table, sem: Semantics, r: Run)
    requires p.WellFormed() && p.Contracts() && AllAdmitted(p, kind, table) && Resolves(table, resolved) && IsRun(p, r)
    requires AtInst(p, r.at) && InRange(p, r.at)
    requires var q := Rewritten(p, resolved);
             var dead := DeadTransfers(q, kind, seeds);
             && r.at !in dead && InRange(q, r.at)
             && Agree(LiveAt(q, seeds), r.at, StoreOf(p, sem, r), StoreOf(Prune(q, dead), sem, PruneRun(q, dead, r)))
    ensures var q := Rewritten(p, resolved);
            var dead := DeadTransfers(q, kind, seeds);
            var s, t := StoreOf(p, sem, r), StoreOf(Prune(q, dead), sem, PruneRun(q, dead, r));
            var at := Shift(q, dead, r.at);
            && AtInst(Prune(q, dead), at)
            && InstAt(Prune(q, dead), at) == RewriteInst(InstAt(p, r.at), r.at, resolved)
            && ReadAll(t, InstAt(Prune(q, dead), at).uses) == ReadAll(s, InstAt(p, r.at).uses)
  {
    var q := Rewritten(p, resolved);
    var dead, live := DeadTransfers(q, kind, seeds), LiveAt(q, seeds);
    var s, t := StoreOf(p, sem, r), StoreOf(Prune(q, dead), sem, PruneRun(q, dead, r));
    RewriteAt(p, resolved, r.at);
    SurvivorAt(q, dead, r.at);
    RewrittenExec(p, kind, sem, table, resolved, r, 0);
    var renamed := RewriteInst(InstAt(p, r.at), r.at, resolved);
    forall v | v in renamed.uses ensures Read(s, v) == Read(t, v) {
      assert r.at in AllForced(q);
      MattersRead(q, seeds, AllForced(q), r.at, v);
      assert live(r.at, v);
    }
    assert ReadAll(t, renamed.uses) == ReadAll(s, renamed.uses);
  }

  /** Propagation leaves every effect alone: along each run the noticed steps are the same, in the same order, on the
      same inputs. */
  lemma {:induction false} PropagationKeepsEffects(p: Cfg, kind: Propagation, seeds: Seeds, table: Table, resolved: Table,
                                                   sem: Semantics, r: Run)
    requires p.WellFormed() && p.Contracts() && AllAdmitted(p, kind, table) && Resolves(table, resolved) && IsRun(p, r)
    ensures var q := Rewritten(p, resolved);
            var dead := DeadTransfers(q, kind, seeds);
            EffectsOf(Prune(q, dead), sem, {}, PruneRun(q, dead, r)) == EffectsOf(p, sem, {}, r)
  {
    hide DeadTransfers, AllAdmitted, Resolves, Rewritten, Prune, StoreOf, ReadAll, Cfg.WellFormed, Cfg.Contracts;
    if r.Step? {
      var q := Rewritten(p, resolved);
      var dead, prev := DeadTransfers(q, kind, seeds), r.prev;
      RewriteContracts(p, resolved);
      PropagationKeepsEffects(p, kind, seeds, table, resolved, sem, prev);
      PropagationPreserves(p, kind, seeds, table, resolved, sem, prev);
      PropagationPreserves(p, kind, seeds, table, resolved, sem, r);
      RewriteMoves(p, resolved, prev.at, r.at);
      if Execs(p, prev.at, r.at) {
        RewriteAt(p, resolved, prev.at);
        if prev.at in dead {
          DeadIsTransfer(q, kind, seeds, prev.at);
        } else {
          SurvivorAt(q, dead, prev.at);
        }
      }
    }
  }

  lemma DeadIsTransfer(q: Cfg, kind: Propagation, seeds: Seeds, a: Pos)
    requires q.Contracts() && a in DeadTransfers(q, kind, seeds)
    ensures AtInst(q, a) && !InstAt(q, a).mayUnwind && !InstAt(q, a).effectful
  {
    assert InstAt(q, a).Ok();
  }

  /** And the propagated program does nothing the original could not. */
  lemma PropagationAddsNothing(p: Cfg, kind: Propagation, seeds: Seeds, resolved: Table, q: Run) returns (r: Run)
    requires p.WellFormed() && p.Contracts()
    requires IsRun(Prune(Rewritten(p, resolved), DeadTransfers(Rewritten(p, resolved), kind, seeds)), q)
    ensures IsRun(p, r) && PruneRun(Rewritten(p, resolved), DeadTransfers(Rewritten(p, resolved), kind, seeds), r) == q
  {
    RewriteContracts(p, resolved);
    TransfersKeepLive(Rewritten(p, resolved), kind, seeds);
    r := PruneIsOnto(Rewritten(p, resolved), DeadTransfers(Rewritten(p, resolved), kind, seeds), q);
    RewriteRuns(p, resolved, r);
  }
}

/** The pass itself: site tables, guards, operand rewriting, and removal, step by step. */
module CopyPropagation {
  import opened Wrappers
  import opened Program
  import opened Trails
  import opened Dominance
  import opened PointDominanceQuery
  import opened Pruning
  import opened Backward
  import opened BackwardSolve
  import opened RowTransfer
  import opened LivenessSolver
  import opened Substitutions
  import opened ChainResolver
  import opened PropagationMeaning
  import opened FoundTransfers

  type Sites = map<Var, seq<Pos>>

  function At(sites: Sites, v: Var): seq<Pos> { if v in sites then sites[v] else [] }

  /** The points below block `b`, and those of `b` below instruction `i`. */
  predicate Visited(b: BlockId, i: nat, a: Pos) { a.block < b || (a.block == b && a.idx < i) }

  /** The table lists each visited point once for every time it mentions the variable. */
  ghost predicate DefSitesOk(p: Cfg, sites: Sites, b: BlockId, i: nat) {
    forall v, a {:trigger multiset(At(sites, v))[a]} ::
      multiset(At(sites, v))[a] == if Visited(b, i, a) then Count(DefsAt(p, a), v) else 0
  }

  ghost predicate UseSitesOk(p: Cfg, sites: Sites, b: BlockId, i: nat) {
    forall v, a {:trigger multiset(At(sites, v))[a]} ::
      multiset(At(sites, v))[a] == if Visited(b, i, a) then Count(UsesAt(p, a), v) else 0
  }

  lemma AddOne(sites: Sites, more: Sites, vs: seq<Var>, at: Pos, k: nat)
    requires k < |vs|
    requires forall v, a {:trigger multiset(At(more, v))[a]} ::
               multiset(At(more, v))[a] == multiset(At(sites, v))[a] + if a == at then Count(vs[..k], v) else 0
    ensures var next := more[vs[k] := At(more, vs[k]) + [at]];
            forall v, a {:trigger multiset(At(next, v))[a]} ::
              multiset(At(next, v))[a] == multiset(At(sites, v))[a] + if a == at then Count(vs[..k + 1], v) else 0
  {
    hide Count, At;
    var next := more[vs[k] := At(more, vs[k]) + [at]];
    forall v, a
      ensures multiset(At(next, v))[a] == multiset(At(sites, v))[a] + if a == at then Count(vs[..k + 1], v) else 0
    {
      assert multiset(At(more, v))[a] == multiset(At(sites, v))[a] + if a == at then Count(vs[..k], v) else 0;
      AddOneAt(more, vs, at, k, v, a);
    }
  }

  lemma AddOneAt(more: Sites, vs: seq<Var>, at: Pos, k: nat, v: Var, a: Pos)
    requires k < |vs|
    ensures multiset(At(more[vs[k] := At(more, vs[k]) + [at]], v))[a] ==
            multiset(At(more, v))[a] + if a == at then Count(vs[..k + 1], v) - Count(vs[..k], v) else 0
  {
    assert vs[..k + 1][..k] == vs[..k];
    OneSiteMore(At(more, v), at, a);
  }

  lemma OneSiteMore(sites: seq<Pos>, at: Pos, a: Pos)
    ensures multiset(sites + [at])[a] == multiset(sites)[a] + if a == at then 1 else 0
  {
  }

  /** Adds `at` once for every mention in `vs`. */
  method AddSites(sites: Sites, vs: seq<Var>, at: Pos) returns (more: Sites)
    ensures forall v, a {:trigger multiset(At(more, v))[a]} ::
              multiset(At(more, v))[a] == multiset(At(sites, v))[a] + if a == at then Count(vs, v) else 0
  {
    more := sites;
    assert forall v :: Count(vs[..0], v) == 0;
    for k := 0 to |vs|
      invariant forall v, a {:trigger multiset(At(more, v))[a]} ::
                  multiset(At(more, v))[a] == multiset(At(sites, v))[a] + if a == at then Count(vs[..k], v) else 0
    {
      AddOne(sites, more, vs, at, k);
      more := more[vs[k] := At(more, vs[k]) + [at]];
    }
    TakeAll(vs);
  }

  /** Where every variable is defined and where it is used. */
  method CollectSites(p: Cfg) returns (defs: Sites, uses: Sites)
    requires p.WellFormed()
    ensures DefSitesOk(p, defs, p.bound, 0) && UseSitesOk(p, uses, p.bound, 0)
  {
    defs, uses := map[], map[];
    for b := 0 to p.bound
      invariant DefSitesOk(p, defs, b, 0) && UseSitesOk(p, uses, b, 0)
    {
      var insts := Insts(p, b);
      for i := 0 to |insts|
        invariant DefSitesOk(p, defs, b, i) && UseSitesOk(p, uses, b, i)
      {
        defs := AddSites(defs, insts[i].defs, Pos(b, i));
        uses := AddSites(uses, insts[i].uses, Pos(b, i));
      }
    }
  }

  /** One entry in the table is exactly a sole definition. */
  lemma OneSite(p: Cfg, sites: Sites, v: Var, a: Pos)
    requires p.WellFormed() && DefSitesOk(p, sites, p.bound, 0)
    ensures SoleDefinition(p, v, a) <==> At(sites, v) == [a]
  {
    forall b ensures multiset(At(sites, v))[b] == Count(DefsAt(p, b), v) {
      assert !Visited(p.bound, 0, b) ==> DefsAt(p, b) == [];
    }
    if SoleDefinition(p, v, a) {
      assert multiset(At(sites, v)) == multiset{a};
      SingletonSeq(At(sites, v), a);
    }
    if At(sites, v) == [a] {
      assert multiset(At(sites, v)) == multiset{a};
    }
  }

  lemma SingletonSeq(s: seq<Pos>, a: Pos)
    requires multiset(s) == multiset{a}
    ensures s == [a]
  {
    assert |multiset(s)| == 1;
    assert s[0] in multiset(s);
  }

  lemma NoSite(p: Cfg, sites: Sites, v: Var)
    requires p.WellFormed() && DefSitesOk(p, sites, p.bound, 0)
    ensures NeverDefined(p, v) <==> At(sites, v) == []
  {
    forall b ensures multiset(At(sites, v))[b] == Count(DefsAt(p, b), v) {
      assert !Visited(p.bound, 0, b) ==> DefsAt(p, b) == [];
    }
    assert At(sites, v) != [] ==> multiset(At(sites, v))[At(sites, v)[0]] > 0;
  }

  lemma UseListed(p: Cfg, sites: Sites, v: Var, a: Pos)
    requires p.WellFormed() && UseSitesOk(p, sites, p.bound, 0)
    ensures v in UsesAt(p, a) <==> a in At(sites, v)
  {
    assert !Visited(p.bound, 0, a) ==> UsesAt(p, a) == [];
    assert multiset(At(sites, v))[a] == Count(UsesAt(p, a), v);
    CountIn(UsesAt(p, a), v);
  }

  /** Whether the pair `dst := src` of the transfer at `a` passes the guards. */
  method Guard(points: PointDominance, defs: Sites, uses: Sites, kind: Propagation, a: Pos, dst: Var, src: Var)
    returns (ok: bool)
    requires points.Valid() && DefSitesOk(points.p, defs, points.p.bound, 0) && UseSitesOk(points.p, uses, points.p.bound, 0)
    requires InRange(points.p, a) && AtInst(points.p, a) && points.IsReachable(a.block)
    requires Selected(InstAt(points.p, a), kind) && HasPair(InstAt(points.p, a), dst, src)
    requires dst in InstAt(points.p, a).defs
    modifies points`unwindReach
    ensures points.Valid() && ok == Admitted(points.p, kind, dst, Substitution(src, a))
  {
    hide Cfg.WellFormed, InRange, AtInst, HasPair;
    var p := points.p;
    OneSite(p, defs, dst, a);
    NoSite(p, defs, src);
    if dst == src || |At(defs, dst)| != 1 {
      return false;
    }
    DefinedHere(p, defs, dst, a);
    var sites := At(defs, src);
    if |sites| > 1 {
      forall site | SoleDefinition(p, src, site) ensures false {
        OneSite(p, defs, src, site);
      }
      return false;
    }
    if |sites| == 1 {
      OneSite(p, defs, src, sites[0]);
      SiteInside(p, defs, src, sites[0]);
      var stable := points.Query(sites[0], a);
      if !stable {
        forall site | SoleDefinition(p, src, site) ensures site == sites[0] {
          OneSite(p, defs, src, site);
        }
        return false;
      }
    }
    ok := UsesDominated(points, uses, a, dst);
  }

  lemma DefinedHere(p: Cfg, defs: Sites, dst: Var, a: Pos)
    requires p.WellFormed() && DefSitesOk(p, defs, p.bound, 0) && InRange(p, a) && AtInst(p, a)
    requires dst in InstAt(p, a).defs && |At(defs, dst)| == 1
    ensures At(defs, dst) == [a]
  {
    DefinesIffCounts(p, a, dst);
    assert Visited(p.bound, 0, a);
    assert multiset(At(defs, dst))[a] > 0;
    assert a in At(defs, dst);
  }

  lemma SiteInside(p: Cfg, defs: Sites, v: Var, a: Pos)
    requires p.WellFormed() && DefSitesOk(p, defs, p.bound, 0) && a in At(defs, v)
    ensures a.block in p.blocks && AtInst(p, a)
  {
    assert multiset(At(defs, v))[a] > 0;
  }

  lemma UseInside(p: Cfg, uses: Sites, v: Var, a: Pos)
    requires p.WellFormed() && UseSitesOk(p, uses, p.bound, 0) && a in At(uses, v)
    ensures a.block in p.blocks && AtInst(p, a)
  {
    assert multiset(At(uses, v))[a] > 0;
  }

  /** Every use of `dst` is at the transfer itself or dominated by it. */
  method UsesDominated(points: PointDominance, uses: Sites, a: Pos, dst: Var) returns (ok: bool)
    requires points.Valid() && UseSitesOk(points.p, uses, points.p.bound, 0) && a.block in points.p.blocks
    modifies points`unwindReach
    ensures points.Valid()
    ensures ok == forall use {:trigger UsesAt(points.p, use)} ::
                    dst in UsesAt(points.p, use) ==> use == a || Dominates(points.p, a, use)
  {
    var sites := At(uses, dst);
    for k := 0 to |sites|
      invariant points.Valid()
      invariant forall j :: 0 <= j < k ==> sites[j] == a || Dominates(points.p, a, sites[j])
    {
      if sites[k] != a {
        UseInside(points.p, uses, dst, sites[k]);
        var dominated := points.Query(a, sites[k]);
        if !dominated {
          UseListed(points.p, uses, dst, sites[k]);
          assert dst in UsesAt(points.p, sites[k]);
          return false;
        }
      }
    }
    forall use | dst in UsesAt(points.p, use) ensures use == a || Dominates(points.p, a, use) {
      UseListed(points.p, uses, dst, use);
    }
    ok := true;
  }

  /** The table holds exactly the admitted substitutions whose transfer has been visited. */
  ghost predicate TableOk(p: Cfg, kind: Propagation, table: Table, b: BlockId, i: nat) {
    && AllAdmitted(p, kind, table)
    && (forall dst, sub {:trigger Admitted(p, kind, dst, sub)} ::
          Admitted(p, kind, dst, sub) && Visited(b, i, sub.definition) ==> dst in table && table[dst] == sub)
  }

  /** Adds the admitted pairs of the transfer at `a`. */
  method AddPairs(points: PointDominance, defs: Sites, uses: Sites, kind: Propagation, a: Pos, table: Table)
    returns (more: Table)
    requires points.Valid() && DefSitesOk(points.p, defs, points.p.bound, 0) && UseSitesOk(points.p, uses, points.p.bound, 0)
    requires points.p.Contracts() && InRange(points.p, a) && AtInst(points.p, a)
    requires TableOk(points.p, kind, table, a.block, a.idx)
    modifies points`unwindReach
    ensures points.Valid() && TableOk(points.p, kind, more, a.block, a.idx + 1)
  {
    var inst := InstAt(points.p, a);
    more := table;
    if !Selected(inst, kind) || !points.IsReachable(a.block) {
      NothingAdded(points.p, kind, more, a);
      return;
    }
    assert inst.Ok();
    NoPairsAdded(points.p, kind, more, a);
    var targets, sources := inst.Targets(), inst.Sources();
    for k := 0 to |targets|
      invariant points.Valid() && PairsAdded(points.p, kind, more, a, k)
    {
      assert targets[k] in targets && Target(points.p, a, k) == targets[k] && PairAt(points.p, a, k).source == sources[k];
      var ok := Guard(points, defs, uses, kind, a, targets[k], sources[k]);
      if ok {
        PairAdded(points.p, kind, more, a, k);
        more := more[targets[k] := Substitution(sources[k], a)];
      }
    }
    AllPairsAdded(points.p, kind, more, a);
  }

  /** The `j`-th pair of the transfer at `a`. */
  function Target(p: Cfg, a: Pos, j: nat): Var { if AtInst(p, a) && j < |InstAt(p, a).Targets()| then InstAt(p, a).Targets()[j] else 0 }

  function PairAt(p: Cfg, a: Pos, j: nat): Substitution {
    Substitution(if AtInst(p, a) && j < |InstAt(p, a).Sources()| then InstAt(p, a).Sources()[j] else 0, a)
  }

  /** The table holds every admitted pair of the transfers before `a` and of the first `k` pairs at `a`. */
  ghost predicate PairsAdded(p: Cfg, kind: Propagation, table: Table, a: Pos, k: nat) {
    && AllAdmitted(p, kind, table)
    && (forall dst, sub {:trigger Admitted(p, kind, dst, sub)} ::
          Admitted(p, kind, dst, sub) && Visited(a.block, a.idx, sub.definition) ==> dst in table && table[dst] == sub)
    && forall j: nat {:trigger PairAt(p, a, j)} :: j < k && Admitted(p, kind, Target(p, a, j), PairAt(p, a, j)) ==>
         Target(p, a, j) in table && table[Target(p, a, j)] == PairAt(p, a, j)
  }

  lemma NoPairsAdded(p: Cfg, kind: Propagation, table: Table, a: Pos)
    requires TableOk(p, kind, table, a.block, a.idx)
    ensures PairsAdded(p, kind, table, a, 0)
  {
  }

  lemma PairAdded(p: Cfg, kind: Propagation, table: Table, a: Pos, k: nat)
    requires AtInst(p, a) && InstAt(p, a).Ok() && InstAt(p, a).IsTransfer() && k < |InstAt(p, a).Targets()|
    requires PairsAdded(p, kind, table, a, k) && Admitted(p, kind, Target(p, a, k), PairAt(p, a, k))
    ensures PairsAdded(p, kind, table[Target(p, a, k) := PairAt(p, a, k)], a, k + 1)
  {
    var target, pair := Target(p, a, k), PairAt(p, a, k);
    var more := table[target := pair];
    forall dst | dst in more ensures Admitted(p, kind, dst, more[dst]) {
      assert dst in table ==> Admitted(p, kind, dst, table[dst]);
    }
    forall dst, sub | Admitted(p, kind, dst, sub) && Visited(a.block, a.idx, sub.definition)
      ensures dst in more && more[dst] == sub
    {
      OneDefinition(p, kind, dst, sub, pair, target);
    }
    forall j: nat | j < k ensures Target(p, a, j) != target {
      OneTarget(InstAt(p, a), j, k);
    }
  }

  /** A transfer writes each of its targets once. */
  lemma OneTarget(inst: Inst, j: nat, k: nat)
    requires j < k < |inst.Targets()| && inst.Ok() && inst.IsTransfer()
    ensures inst.Targets()[j] != inst.Targets()[k]
  {
  }

  lemma AllPairsAdded(p: Cfg, kind: Propagation, table: Table, a: Pos)
    requires AtInst(p, a) && PairsAdded(p, kind, table, a, |InstAt(p, a).Targets()|)
    ensures TableOk(p, kind, table, a.block, a.idx + 1)
  {
    var targets, sources := InstAt(p, a).Targets(), InstAt(p, a).Sources();
    forall dst, sub | Admitted(p, kind, dst, sub) && sub.definition == a ensures dst in table && table[dst] == sub {
      var j :| 0 <= j < |targets| && j < |sources| && targets[j] == dst && sources[j] == sub.source;
      assert Target(p, a, j) == dst && PairAt(p, a, j) == sub;
    }
  }

  /** Nothing is admitted at an instruction that is no selected transfer, or that is unreachable. */
  lemma NothingAdded(p: Cfg, kind: Propagation, table: Table, a: Pos)
    requires AtInst(p, a) && TableOk(p, kind, table, a.block, a.idx) && (!Selected(InstAt(p, a), kind) || !ReachableBlock(p, a.block))
    ensures TableOk(p, kind, table, a.block, a.idx + 1)
  {
  }

  lemma OneDefinition(p: Cfg, kind: Propagation, dst: Var, sub: Substitution, other: Substitution, target: Var)
    requires Admitted(p, kind, dst, sub) && Admitted(p, kind, target, other) && sub.definition != other.definition
    ensures dst != target
  {
    assert Count(DefsAt(p, sub.definition), dst) == 1;
    assert Count(DefsAt(p, other.definition), target) == 1;
  }

  /** The provably value-preserving substitutions of the selected transfers: every admitted pair, with its source
      moved to the end of its chain. */
  method SoundSubstitutions(p: Cfg, kind: Propagation) returns (resolved: Table, ghost table: Table)
    requires p.WellFormed() && p.Contracts()
    ensures AllAdmitted(p, kind, table) && Resolves(table, resolved)
    ensures forall dst, sub {:trigger Admitted(p, kind, dst, sub)} ::
              Admitted(p, kind, dst, sub) ==> dst in table && table[dst] == sub
  {
    var defs, uses := CollectSites(p);
    var dominators := ComputeDominators(p);
    var points := new PointDominance(p, dominators);
    var found: Table := map[];
    for b := 0 to p.bound
      invariant points.Valid() && points.p == p && TableOk(p, kind, found, b, 0)
    {
      if b in p.blocks {
        found := AddBlock(points, defs, uses, kind, b, found);
      }
      EmptyRest(p, kind, found, b);
    }
    table := found;
    resolved := ResolveChains(found);
  }

  lemma EmptyRest(p: Cfg, kind: Propagation, table: Table, b: BlockId)
    requires TableOk(p, kind, table, b, |Insts(p, b)|)
    ensures TableOk(p, kind, table, b + 1, 0)
  {
  }

  method AddBlock(points: PointDominance, defs: Sites, uses: Sites, kind: Propagation, b: BlockId, table: Table)
    returns (more: Table)
    requires points.Valid() && DefSitesOk(points.p, defs, points.p.bound, 0) && UseSitesOk(points.p, uses, points.p.bound, 0)
    requires points.p.Contracts() && b in points.p.blocks && TableOk(points.p, kind, table, b, 0)
    modifies points`unwindReach
    ensures points.Valid() && TableOk(points.p, kind, more, b, |Insts(points.p, b)|)
  {
    more := table;
    var insts := Insts(points.p, b);
    for i := 0 to |insts|
      invariant points.Valid() && TableOk(points.p, kind, more, b, i)
    {
      more := AddPairs(points, defs, uses, kind, Pos(b, i), more);
    }
  }

  function Replace(vs: seq<Var>, old': Var, with: Var): seq<Var> {
    seq(|vs|, i requires 0 <= i < |vs| => if vs[i] == old' then with else vs[i])
  }

  /** Rewrites every use of one variable in one instruction. */
  function RewriteUse(inst: Inst, old': Var, with: Var): Inst {
    inst.(uses := Replace(inst.uses, old', with),
          transfer := match inst.transfer
                      case Aliases(definitions, sources) => Aliases(definitions, Replace(sources, old', with))
                      case other => other)
  }

  /** The part of the table that rewrites the variables of `done`. */
  function Part(table: Table, done: set<Var>): Table { map v | v in table && v in done :: table[v] }

  lemma RewriteOneMore(inst: Inst, at: Pos, table: Table, done: set<Var>, v: Var)
    requires v in table && v !in done && table[v].definition != at
    requires forall d :: d in table ==> table[d].source !in table
    ensures RewriteInst(inst, at, Part(table, done + {v})) ==
            RewriteUse(RewriteInst(inst, at, Part(table, done)), v, table[v].source)
  {
    forall u
      ensures Rename(Part(table, done + {v}), at, u) ==
              if Rename(Part(table, done), at, u) == v then table[v].source else Rename(Part(table, done), at, u)
    {
    }
    assert RenameAll(Part(table, done + {v}), at, inst.uses) ==
           Replace(RenameAll(Part(table, done), at, inst.uses), v, table[v].source);
    if inst.transfer.Aliases? {
      assert RenameAll(Part(table, done + {v}), at, inst.transfer.sources) ==
             Replace(RenameAll(Part(table, done), at, inst.transfer.sources), v, table[v].source);
    }
  }

  lemma SkipOne(inst: Inst, at: Pos, table: Table, done: set<Var>, v: Var)
    requires v in table ==> table[v].definition == at
    ensures RewriteInst(inst, at, Part(table, done + {v})) == RewriteInst(inst, at, Part(table, done))
  {
    forall u ensures Rename(Part(table, done + {v}), at, u) == Rename(Part(table, done), at, u) {
    }
    assert RenameAll(Part(table, done + {v}), at, inst.uses) == RenameAll(Part(table, done), at, inst.uses);
    if inst.transfer.Aliases? {
      assert RenameAll(Part(table, done + {v}), at, inst.transfer.sources) ==
             RenameAll(Part(table, done), at, inst.transfer.sources);
    }
  }

  lemma RewriteComplete(inst: Inst, at: Pos, table: Table, done: set<Var>)
    requires inst.Ok() && Elems(inst.uses) <= done
    ensures RewriteInst(inst, at, Part(table, done)) == RewriteInst(inst, at, table)
  {
    assert forall u :: u in done ==> Rename(Part(table, done), at, u) == Rename(table, at, u);
    assert RenameAll(Part(table, done), at, inst.uses) == RenameAll(table, at, inst.uses);
    if inst.transfer.Aliases? {
      assert RenameAll(Part(table, done), at, inst.transfer.sources) == RenameAll(table, at, inst.transfer.sources);
    }
  }

  /** The least member of a non-empty set. */
  method PopFirst(vs: set<Var>) returns (least: Var)
    requires vs != {}
    ensures least in vs && forall v :: v in vs ==> least <= v
  {
    var rest := vs;
    HasMember(rest);
    least :| least in rest;
    rest := rest - {least};
    while rest != {}
      invariant rest <= vs && least in vs && forall v :: v in vs && v !in rest ==> least <= v
      decreases rest
    {
      HasMember(rest);
      var v :| v in rest;
      rest := rest - {v};
      if v < least {
        least := v;
      }
    }
  }

  /** Matches one instruction against its own operands in ascending order. A source the rewrite introduces becomes a
      candidate when it sorts after the variable it replaced. */
  method RewriteOperands(inst: Inst, at: Pos, table: Table) returns (rewritten: Inst)
    requires inst.Ok() && forall d :: d in table ==> table[d].source !in table
    ensures rewritten == RewriteInst(inst, at, table)
  {
    rewritten := inst;
    var candidates := Elems(inst.uses);
    ghost var done := {};
    assert RewriteInst(inst, at, Part(table, {})) == inst;
    while candidates != {}
      invariant rewritten == RewriteInst(inst, at, Part(table, done))
      invariant Elems(inst.uses) <= done + candidates
      invariant done !! (candidates * table.Keys)
      decreases candidates * table.Keys, candidates
    {
      var first := PopFirst(candidates);
      ghost var before := candidates * table.Keys;
      candidates := candidates - {first};
      if first !in table {
        SkipOne(inst, at, table, done, first);
        done := done + {first};
        assert candidates * table.Keys == before;
      } else {
        assert candidates * table.Keys == before - {first};
        if table[first].definition == at {
          SkipOne(inst, at, table, done, first);
        } else {
          RewriteOneMore(inst, at, table, done, first);
          rewritten := RewriteUse(rewritten, first, table[first].source);
          if table[first].source > first {
            candidates := candidates + {table[first].source};
            assert candidates * table.Keys == before - {first};
          }
        }
        done := done + {first};
      }
    }
    RewriteComplete(inst, at, table, done);
  }

  /** Rewrites the operands of every instruction of one block. */
  method RewriteInsts(p: Cfg, b: BlockId, table: Table) returns (insts: seq<Inst>)
    requires b in p.blocks && p.Contracts() && forall d :: d in table ==> table[d].source !in table
    ensures insts == RewriteBlock(p.blocks[b], b, table)
  {
    insts := [];
    for i := 0 to |p.blocks[b]|
      invariant |insts| == i && forall k :: 0 <= k < i ==> insts[k] == RewriteInst(p.blocks[b][k], Pos(b, k), table)
    {
      assert p.blocks[b][i].Ok();
      var inst := RewriteOperands(p.blocks[b][i], Pos(b, i), table);
      insts := insts + [inst];
    }
  }

  method RewriteBlocks(p: Cfg, table: Table) returns (q: Cfg)
    requires p.WellFormed() && p.Contracts() && forall d :: d in table ==> table[d].source !in table
    ensures q == Rewritten(p, table)
  {
    var blocks := map[];
    for b := 0 to p.bound
      invariant blocks.Keys == set x | x in p.blocks && x < b
      invariant forall x :: x in blocks ==> blocks[x] == RewriteBlock(p.blocks[x], x, table)
    {
      if b in p.blocks {
        var insts := RewriteInsts(p, b, table);
        blocks := blocks[b := insts];
      }
    }
    q := p.(blocks := blocks);
    assert blocks == Rewritten(p, table).blocks;
  }

  /** The selected transfers of `b` none of whose definitions is live just after them. */
  method UnreadInBlock(q: Cfg, kind: Propagation, seeds: Seeds, liveIn: Facts, liveOut: Facts, b: BlockId)
    returns (dead: set<Pos>)
    requires q.WellFormed() && b in q.blocks && liveIn.Keys == liveOut.Keys == q.blocks.Keys
    requires Justified(q, seeds, AllForced(q), liveIn) && Closed(q, seeds, AllForced(q), liveIn)
    requires liveOut[b] == OutOf(q, seeds, liveIn, b)
    ensures forall a :: a in dead <==> a.block == b && a in DeadTransfers(q, kind, seeds)
  {
    var unwind := LiveOnUnwind(q, liveIn, b);
    var points := LivePoints(q, b, liveOut[b], unwind);
    var insts := q.blocks[b];
    dead := {};
    for i := 0 to |insts|
      invariant forall a :: a in dead <==> a.block == b && a.idx < i && a in DeadTransfers(q, kind, seeds)
    {
      UnreadIffDead(q, kind, seeds, liveIn, Pos(b, i));
      if Selected(insts[i], kind) && !(exists d :: d in insts[i].Targets() && d in points[i + 1]) {
        dead := dead + {Pos(b, i)};
      }
    }
    assert forall a :: a in DeadTransfers(q, kind, seeds) && a.block == b ==> a.idx < |insts|;
  }

  lemma AllForcesThrows(q: Cfg)
    ensures ForcesThrows(q, AllForced(q))
  {
  }

  lemma UnreadIffDead(q: Cfg, kind: Propagation, seeds: Seeds, liveIn: Facts, a: Pos)
    requires q.WellFormed() && InRange(q, a) && AtInst(q, a)
    requires Justified(q, seeds, AllForced(q), liveIn) && Closed(q, seeds, AllForced(q), liveIn)
    ensures a in DeadTransfers(q, kind, seeds) <==>
              && Selected(InstAt(q, a), kind)
              && forall d :: d in InstAt(q, a).Targets() ==> d !in LiveBefore(q, seeds, AllForced(q), liveIn, After(a))
  {
    AllForcesThrows(q);
    forall d
      ensures d in LiveBefore(q, seeds, AllForced(q), liveIn, After(a)) <==> Matters(q, seeds, AllForced(q), After(a), d)
    {
      FactsExact(q, seeds, AllForced(q), liveIn, After(a), d);
    }
  }

  /** All transfers whose value no longer reaches a reader or an exit. */
  method UnreadTransfers(q: Cfg, kind: Propagation, seeds: Seeds) returns (dead: set<Pos>)
    requires q.WellFormed()
    ensures dead == DeadTransfers(q, kind, seeds)
  {
    var liveIn, liveOut := Solve(q, seeds);
    dead := {};
    for b := 0 to q.bound
      invariant forall a :: a in dead <==> a.block < b && a in DeadTransfers(q, kind, seeds)
    {
      if b in q.blocks {
        var more := UnreadInBlock(q, kind, seeds, liveIn, liveOut, b);
        dead := dead + more;
      }
    }
  }

  /** Copy or alias propagation: substitute, rewrite, and remove what nothing reads any more. */
  method Propagate(p: Cfg, kind: Propagation, seeds: Seeds) returns (q: Cfg, ghost table: Table, ghost resolved: Table)
    requires p.WellFormed() && p.Contracts()
    ensures AllAdmitted(p, kind, table) && Resolves(table, resolved)
    ensures q == if table == map[] then p
                 else Prune(Rewritten(p, resolved), DeadTransfers(Rewritten(p, resolved), kind, seeds))
    ensures forall a, dst, src {:trigger Replaceable(p, kind, a, dst, src)} ::
              Replaceable(p, kind, a, dst, src) <==> dst in table && table[dst] == Substitution(src, a)
    ensures ReadersMoved(p, kind, q) && TransfersGone(p, kind, seeds, q)
  {
    var substitutions;
    substitutions, table := SoundSubstitutions(p, kind);
    resolved := substitutions;
    PropagationFinds(p, kind, seeds, table, resolved);
    if substitutions.Keys == {} {
      NothingFound(p, kind, seeds, table);
      return p, table, resolved;
    }
    AdmittedAcyclic(p, kind, table);
    forall d | d in substitutions ensures substitutions[d].source !in substitutions {
      assert Ends(table, d, substitutions[d].source);
    }
    var rewritten := RewriteBlocks(p, substitutions);
    RewriteContracts(p, substitutions);
    var dead := UnreadTransfers(rewritten, kind, seeds);
    q := RetainAll(rewritten, dead);
  }
}
