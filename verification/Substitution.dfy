/** Copy and alias substitutions: which are admitted, and why an admitted one never changes a value. */
module Substitutions {
  import opened Wrappers
  import opened Program
  import opened Trails
  import opened Dominance

  datatype Propagation = Copies | AliasSets

  datatype Substitution = Substitution(source: Var, definition: Pos)

  type Table = map<Var, Substitution>

  /** The transfers a pass of this kind looks at. */
  predicate Selected(inst: Inst, kind: Propagation) {
    if kind == Copies then inst.transfer.Copy? else inst.IsTransfer()
  }

  predicate HasPair(inst: Inst, dst: Var, src: Var) {
    exists i :: 0 <= i < |inst.Targets()| && i < |inst.Sources()| && inst.Targets()[i] == dst && inst.Sources()[i] == src
  }

  function Count(vs: seq<Var>, v: Var): nat {
    if vs == [] then 0 else Count(vs[..|vs| - 1], v) + if vs[|vs| - 1] == v then 1 else 0
  }

  function DefsAt(p: Cfg, a: Pos): seq<Var> { if AtInst(p, a) then InstAt(p, a).defs else [] }
  function UsesAt(p: Cfg, a: Pos): seq<Var> { if AtInst(p, a) then InstAt(p, a).uses else [] }

  /** `a` is the only definition of `v`, and defines it once. */
  ghost predicate SoleDefinition(p: Cfg, v: Var, a: Pos) {
    Count(DefsAt(p, a), v) == 1 && forall b :: b != a ==> Count(DefsAt(p, b), v) == 0
  }

  ghost predicate NeverDefined(p: Cfg, v: Var) {
    forall b :: Count(DefsAt(p, b), v) == 0
  }

  /** The guards: sole definition, stable source, and dominated uses. */
  ghost predicate Admitted(p: Cfg, kind: Propagation, dst: Var, sub: Substitution) {
    var a := sub.definition;
    && InRange(p, a) && AtInst(p, a) && Selected(InstAt(p, a), kind) && ReachableBlock(p, a.block)
    && HasPair(InstAt(p, a), dst, sub.source) && dst != sub.source
    && SoleDefinition(p, dst, a)
    && (NeverDefined(p, sub.source) || exists site :: SoleDefinition(p, sub.source, site) && Dominates(p, site, a))
    && (forall use {:trigger UsesAt(p, use)} :: dst in UsesAt(p, use) ==> use == a || Dominates(p, a, use))
  }

  ghost predicate AllAdmitted(p: Cfg, kind: Propagation, table: Table) {
    forall dst {:trigger Admitted(p, kind, dst, table[dst])} :: dst in table ==> Admitted(p, kind, dst, table[dst])
  }

  lemma {:induction false} CountIn(vs: seq<Var>, v: Var)
    ensures Count(vs, v) > 0 <==> v in vs
  {
    if vs != [] {
      CountIn(vs[..|vs| - 1], v);
      assert vs == vs[..|vs| - 1] + [vs[|vs| - 1]];
    }
  }

  lemma DefinesIffCounts(p: Cfg, a: Pos, v: Var)
    requires AtInst(p, a)
    ensures v in InstAt(p, a).defs <==> Count(DefsAt(p, a), v) > 0
  {
    CountIn(DefsAt(p, a), v);
  }

  /** `a` has run, and nothing has defined `src` since it last did. */
  predicate Fresh(p: Cfg, r: Run, a: Pos, src: Var) {
    match r
    case Enter(_, _) => false
    case Step(prev, at, _) =>
      if prev.at == a && at == After(a) then true
      else if Execs(p, prev.at, at) && src in InstAt(p, prev.at).defs then false
      else Fresh(p, prev, a, src)
  }

  /** A transfer gives each destination the value its source had just before. */
  lemma TransferMoves(sem: Semantics, inst: Inst, s: Store, env: int, dst: Var, src: Var)
    requires inst.Ok() && inst.IsTransfer() && HasPair(inst, dst, src)
    ensures Read(ExecInst(sem, inst, s, env), dst) == Read(s, src)
  {
    var i :| 0 <= i < |inst.Targets()| && i < |inst.Sources()| && inst.Targets()[i] == dst && inst.Sources()[i] == src;
    AssignOnce(s, inst.Targets(), Results(sem, inst, s, env), i);
  }

  /** While a substitution is fresh its destination and its source hold one value. */
  lemma {:induction false} FreshEqual(p: Cfg, kind: Propagation, sem: Semantics, dst: Var, sub: Substitution, r: Run)
    requires p.WellFormed() && p.Contracts() && Admitted(p, kind, dst, sub) && IsRun(p, r)
    requires Fresh(p, r, sub.definition, sub.source)
    ensures Read(StoreOf(p, sem, r), dst) == Read(StoreOf(p, sem, r), sub.source)
  {
    var a, src := sub.definition, sub.source;
    var prev := r.prev;
    RunInRange(p, prev);
    if Execs(p, prev.at, r.at) {
      var inst, s := InstAt(p, prev.at), StoreOf(p, sem, prev);
      DefinesIffCounts(p, prev.at, src);
      DefinesIffCounts(p, prev.at, dst);
      if prev.at == a {
        SourceElsewhere(p, kind, dst, sub);
        TransferMoves(sem, inst, s, r.env, dst, src);
        ExecOther(sem, inst, s, r.env, src);
      } else {
        FreshEqual(p, kind, sem, dst, sub, prev);
        ExecOther(sem, inst, s, r.env, src);
        ExecOther(sem, inst, s, r.env, dst);
      }
    } else {
      FreshEqual(p, kind, sem, dst, sub, prev);
    }
  }

  /** The transfer does not define its own source. */
  lemma SourceElsewhere(p: Cfg, kind: Propagation, dst: Var, sub: Substitution)
    requires Admitted(p, kind, dst, sub)
    ensures sub.source !in InstAt(p, sub.definition).defs
  {
    DefinesIffCounts(p, sub.definition, sub.source);
    if !NeverDefined(p, sub.source) {
      var site :| SoleDefinition(p, sub.source, site) && Dominates(p, site, sub.definition);
      assert site != sub.definition;
    }
  }

  /** What a run has executed it has stood before. */
  lemma {:induction false} ExecutedPrefix(p: Cfg, r: Run, d: Pos) returns (q: Run)
    requires IsRun(p, r) && Executed(r, d)
    ensures IsRun(p, q) && q.at == d && q < r
    ensures forall x :: Executed(q, x) ==> Executed(r, x)
  {
    if r.prev.at == d && r.at == After(d) {
      q := r.prev;
    } else {
      q := ExecutedPrefix(p, r.prev, d);
    }
  }

  /** If every run to `a` has executed `site`, some run stands before `site` without having executed `a`. */
  lemma {:induction false} FirstArrival(p: Cfg, r: Run, site: Pos, a: Pos) returns (q: Run)
    requires IsRun(p, r) && r.at == site && AlwaysExecuted(p, site, a)
    ensures IsRun(p, q) && q.at == site && !Executed(q, a)
  {
    if Executed(r, a) {
      q := ExecutedPrefix(p, r, a);
      q := ExecutedPrefix(p, q, site);
      q := FirstArrival(p, q, site, a);
    } else {
      q := r;
    }
  }

  /** If a run is not fresh at its end, some run to the same place has not executed `a` at all: the one that reaches
      the source's definition first, spliced with what followed its last execution. */
  lemma {:induction false} StaleSplice(p: Cfg, kind: Propagation, dst: Var, sub: Substitution, r: Run) returns (q: Run)
    requires p.WellFormed() && Admitted(p, kind, dst, sub) && IsRun(p, r)
    requires !Fresh(p, r, sub.definition, sub.source)
    ensures IsRun(p, q) && q.at == r.at && !Executed(q, sub.definition)
  {
    var a, src := sub.definition, sub.source;
    match r
    case Enter(_, _) => q := r;
    case Step(prev, at, env) =>
      if Execs(p, prev.at, at) && src in InstAt(p, prev.at).defs {
        DefinesIffCounts(p, prev.at, src);
        var site :| SoleDefinition(p, src, site) && Dominates(p, site, a);
        assert site == prev.at;
        DominatesAlways(p, site, a);
        q := FirstArrival(p, prev, site, a);
        q := Step(q, at, env);
      } else {
        q := StaleSplice(p, kind, dst, sub, prev);
        q := Step(q, at, env);
      }
  }

  lemma DominatesAlways(p: Cfg, d: Pos, q: Pos)
    requires p.WellFormed() && AtInst(p, d) && Dominates(p, d, q)
    ensures AlwaysExecuted(p, d, q)
  {
    forall r | IsRun(p, r) && r.at == q && !Executed(r, d) ensures false {
      MissedRefutes(p, d, q, r);
    }
  }

  /** Wherever the transfer has always executed, its destination and its source hold one value. */
  lemma AdmittedEqual(p: Cfg, kind: Propagation, sem: Semantics, dst: Var, sub: Substitution, r: Run)
    requires p.WellFormed() && p.Contracts() && Admitted(p, kind, dst, sub) && IsRun(p, r)
    requires AlwaysExecuted(p, sub.definition, r.at)
    ensures Read(StoreOf(p, sem, r), dst) == Read(StoreOf(p, sem, r), sub.source)
  {
    if !Fresh(p, r, sub.definition, sub.source) {
      var q := StaleSplice(p, kind, dst, sub, r);
      assert false;
    }
    FreshEqual(p, kind, sem, dst, sub, r);
  }

  lemma AlwaysTransitive(p: Cfg, a: Pos, b: Pos, c: Pos)
    requires AlwaysExecuted(p, a, b) && AlwaysExecuted(p, b, c)
    ensures AlwaysExecuted(p, a, c)
  {
    forall r | IsRun(p, r) && r.at == c ensures Executed(r, a) {
      var q := ExecutedPrefix(p, r, b);
    }
  }
}

/** The shared-walk chain resolver. */
module ChainResolver {
  import opened Wrappers
  import opened Program
  import opened Trails
  import opened Dominance
  import opened Substitutions

  /** Following `n` sources from `d` arrives at `e`. */
  ghost predicate Leads(table: Table, d: Var, e: Var, n: nat)
    decreases n
  {
    if n == 0 then d == e else d in table && Leads(table, table[d].source, e, n - 1)
  }

  /** Following one or more sources from `d` arrives at `e`. */
  ghost predicate LeadsOn(table: Table, d: Var, e: Var) {
    exists n: nat :: n >= 1 && Leads(table, d, e, n)
  }

  ghost predicate Acyclic(table: Table) {
    forall d {:trigger LeadsOn(table, d, d)} :: !LeadsOn(table, d, d)
  }

  lemma {:induction false} LeadsTrans(table: Table, d: Var, e: Var, f: Var, n: nat, m: nat)
    requires Leads(table, d, e, n) && Leads(table, e, f, m)
    ensures Leads(table, d, f, n + m)
    decreases n
  {
    if n > 0 {
      LeadsTrans(table, table[d].source, e, f, n - 1, m);
    }
  }

  /** Where the naive walk stops is unique: the first variable that is not a key. */
  lemma {:induction false} EndUnique(table: Table, d: Var, e: Var, f: Var, n: nat, m: nat)
    requires Leads(table, d, e, n) && Leads(table, d, f, m) && e !in table && f !in table
    ensures e == f
    decreases n
  {
    if n > 0 && m > 0 {
      EndUnique(table, table[d].source, e, f, n - 1, m - 1);
    }
  }

  /** What the naive walk from `d` gives: the one variable it leads on to that is no key. */
  ghost predicate NaiveEnd(table: Table, d: Var, e: Var) {
    LeadsOn(table, d, e) && e !in table && forall f {:trigger LeadsOn(table, d, f)} :: LeadsOn(table, d, f) && f !in table ==> f == e
  }

  lemma EndIsNaive(table: Table, d: Var, e: Var)
    requires Ends(table, d, e) && Acyclic(table)
    ensures NaiveEnd(table, d, e)
  {
    var n: nat :| n >= 1 && Leads(table, d, e, n);
    forall f | LeadsOn(table, d, f) && f !in table ensures f == e {
      var m: nat :| m >= 1 && Leads(table, d, f, m);
      EndUnique(table, d, e, f, n, m);
    }
  }

  /** What the resolver promises of one key: its source is further along the chain, and at its end unless the
      table has a cycle. */
  ghost predicate Ends(table: Table, d: Var, e: Var) {
    LeadsOn(table, d, e) && (Acyclic(table) ==> e !in table)
  }

  ghost predicate TerminalOk(table: Table, terminal: map<Var, Var>) {
    forall d {:trigger Ends(table, d, terminal[d])} :: d in terminal ==> d in table && Ends(table, d, terminal[d])
  }

  /** The path walked so far: each node's source is the next node, and the last one's is `current`. */
  ghost predicate PathOk(table: Table, path: seq<Var>, current: Var) {
    forall i {:trigger path[i]} :: 0 <= i < |path| ==> path[i] in table && Leads(table, path[i], current, |path| - i)
  }

  lemma ExtendPath(table: Table, path: seq<Var>, current: Var)
    requires PathOk(table, path, current) && current in table
    ensures PathOk(table, path + [current], table[current].source)
  {
    var longer, next := path + [current], table[current].source;
    assert Leads(table, current, next, 1) by { assert Leads(table, next, next, 0); }
    forall i | 0 <= i < |longer| ensures longer[i] in table && Leads(table, longer[i], next, |longer| - i) {
      if i < |path| {
        LeadsTrans(table, path[i], current, next, |path| - i, 1);
      }
    }
  }

  /** Every node of a walked path ends where the walk ended. */
  lemma PathEnds(table: Table, path: seq<Var>, current: Var, end: Var)
    requires PathOk(table, path, current)
    requires current == end || LeadsOn(table, current, end)
    requires Acyclic(table) ==> end !in table
    ensures forall i :: 0 <= i < |path| ==> Ends(table, path[i], end)
  {
    forall i | 0 <= i < |path| ensures Ends(table, path[i], end) {
      if current != end {
        var n: nat :| n >= 1 && Leads(table, current, end, n);
        LeadsTrans(table, path[i], current, end, |path| - i, n);
      }
    }
  }

  /** Walks from `key` until a resolved node, a variable that is no key, or a repeat. */
  method Walk(table: Table, terminal: map<Var, Var>, key: Var) returns (path: seq<Var>, end: Var)
    requires key in table && TerminalOk(table, terminal)
    ensures (key in path || key in terminal) && forall v :: v in path ==> v in table && Ends(table, v, end)
  {
    path := [];
    ghost var seen := {};
    var current := key;
    while true
      invariant PathOk(table, path, current) && seen == Elems(path) <= table.Keys
      invariant key in path || current == key
      decreases table.Keys - seen
    {
      if current in terminal {
        end := terminal[current];
        assert Ends(table, current, end);
        PathEnds(table, path, current, end);
        return;
      }
      if current !in table {
        end := current;
        PathEnds(table, path, current, end);
        return;
      }
      if current in path {
        var i :| 0 <= i < |path| && path[i] == current;
        assert LeadsOn(table, current, current);
        end := current;
        PathEnds(table, path, current, end);
        return;
      }
      ExtendPath(table, path, current);
      path, seen, current := path + [current], seen + {current}, table[current].source;
    }
  }

  /** Rewrites each substitution's source to the end of its chain. Every node of a walked path learns the same
      terminal, and the walk ends on any table. */
  method ResolveChains(table: Table) returns (resolved: Table)
    ensures resolved.Keys == table.Keys
    ensures forall d :: d in table ==> resolved[d].definition == table[d].definition
    ensures forall d :: d in table ==> Ends(table, d, resolved[d].source)
    ensures Acyclic(table) ==> forall d :: d in table ==> NaiveEnd(table, d, resolved[d].source)
  {
    var terminal: map<Var, Var> := map[];
    var keys := table.Keys;
    while keys != {}
      invariant keys <= table.Keys && table.Keys - keys <= terminal.Keys && TerminalOk(table, terminal)
      decreases keys
    {
      HasMember(keys);
      var key :| key in keys;
      keys := keys - {key};
      if key !in terminal {
        var path, end := Walk(table, terminal, key);
        var learned := terminal + (map v | v in path :: end);
        forall d | d in learned ensures d in table && Ends(table, d, learned[d]) {
          assert d !in path ==> Ends(table, d, terminal[d]);
        }
        terminal := learned;
      }
    }
    resolved := map d | d in table :: Substitution(terminal[d], table[d].definition);
    assert forall d :: d in table ==> Ends(table, d, terminal[d]);
    forall d | Acyclic(table) && d in table ensures NaiveEnd(table, d, terminal[d]) {
      EndIsNaive(table, d, terminal[d]);
    }
  }

  /** A key's transfer has always run wherever the transfer of a key that leads to it is about to run. */
  lemma {:induction false} ChainDominates(p: Cfg, kind: Propagation, table: Table, d: Var, e: Var, n: nat)
    requires p.WellFormed() && AllAdmitted(p, kind, table) && n >= 1 && Leads(table, d, e, n) && e in table
    ensures AlwaysExecuted(p, table[e].definition, table[d].definition)
    decreases n
  {
    var s := table[d].source;
    assert s in table;
    assert Admitted(p, kind, d, table[d]) && Admitted(p, kind, s, table[s]);
    SourceSite(p, kind, d, table[d], s, table[s]);
    if n > 1 {
      ChainDominates(p, kind, table, s, e, n - 1);
      AlwaysTransitive(p, table[e].definition, table[s].definition, table[d].definition);
    }
  }

  lemma SourceSite(p: Cfg, kind: Propagation, d: Var, sub: Substitution, s: Var, next: Substitution)
    requires p.WellFormed() && Admitted(p, kind, d, sub) && Admitted(p, kind, s, next) && sub.source == s
    ensures AlwaysExecuted(p, next.definition, sub.definition)
  {
    assert Count(DefsAt(p, next.definition), s) == 1;
    var site :| SoleDefinition(p, s, site) && Dominates(p, site, sub.definition);
    assert site == next.definition;
    DominatesAlways(p, site, sub.definition);
  }

  /** A table of admitted substitutions has no cycle: a transfer would have to run before its own first run. */
  lemma AdmittedAcyclic(p: Cfg, kind: Propagation, table: Table)
    requires p.WellFormed() && AllAdmitted(p, kind, table)
    ensures Acyclic(table)
  {
    forall d | LeadsOn(table, d, d) ensures false {
      var n: nat :| n >= 1 && Leads(table, d, d, n);
      assert Admitted(p, kind, d, table[d]);
      ChainDominates(p, kind, table, d, d, n);
      var r := DominatesComplete(p, table[d].definition, table[d].definition);
    }
  }

  /** Along a chain of admitted substitutions every variable holds one value, wherever the first has always run. */
  lemma {:induction false} ChainEqual(p: Cfg, kind: Propagation, sem: Semantics, table: Table, d: Var, e: Var, n: nat,
                                      r: Run)
    requires p.WellFormed() && p.Contracts() && AllAdmitted(p, kind, table) && IsRun(p, r)
    requires Leads(table, d, e, n) && (n > 0 ==> AlwaysExecuted(p, table[d].definition, r.at))
    ensures Read(StoreOf(p, sem, r), d) == Read(StoreOf(p, sem, r), e)
    decreases n
  {
    if n > 0 {
      var s := table[d].source;
      assert Admitted(p, kind, d, table[d]);
      AdmittedEqual(p, kind, sem, d, table[d], r);
      if n > 1 {
        ChainDominates(p, kind, table, d, s, 1);
        AlwaysTransitive(p, table[s].definition, table[d].definition, r.at);
      }
      ChainEqual(p, kind, sem, table, s, e, n - 1, r);
    }
  }
}
