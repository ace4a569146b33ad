/** Facts that call every variable they speak of five or overdefined. */
module PatternFacts {
  import opened Wrappers
  import opened Program
  import opened Iteration
  import opened EdgeFixpoint
  import opened Constants
  import opened ConstantPropagation
  import opened ExactConstants

  /** Nothing but fives and overdefined values. */
  predicate Fives(f: Fact<Value>) { forall v :: v in f ==> f[v] == Const(5) || f[v] == Bottom }

  function Lost(f: Fact<Value>): set<Var> { set v | v in f && f[v] == Bottom }

  /** Fives for the variables of `known`, but for those of `lost`. */
  function Pattern(known: set<Var>, lost: set<Var>): Fact<Value> {
    map v | v in known :: if v in lost then Bottom else Const(5)
  }

  lemma IsPattern(f: Fact<Value>)
    requires Fives(f)
    ensures f == Pattern(f.Keys, Lost(f))
  {
    var g := Pattern(f.Keys, Lost(f));
    forall v | v in f ensures v in g && f[v] == g[v] {
    }
  }

  lemma SameFact(f: Fact<Value>, g: Fact<Value>)
    requires f.Keys == g.Keys && forall v :: v in f ==> f[v] == g[v]
    ensures f == g
  {
    forall v | v in f ensures v in g && f[v] == g[v] {
    }
  }

  /** Such facts meet by what they speak of and what they have lost. */
  lemma FivesMeet(f: Fact<Value>, g: Fact<Value>)
    requires Fives(f) && Fives(g)
    ensures var m := MeetFacts(Exact(), f, g);
            Fives(m) && m.Keys == f.Keys + g.Keys && Lost(m) == Lost(f) + Lost(g)
  {
    var m := MeetFacts(Exact(), f, g);
    forall v | v in m ensures m[v] == if v in Lost(f) + Lost(g) then Bottom else Const(5) {
      assert m[v] == MeetWith(Exact(), Get(f, v), Get(g, v));
    }
  }

  lemma SamePattern(f: Fact<Value>, g: Fact<Value>)
    requires Fives(f) && Fives(g) && f.Keys == g.Keys && Lost(f) == Lost(g)
    ensures f == g
  {
    IsPattern(f);
    IsPattern(g);
  }

  lemma StepCopy(d: Var, s: Var, f: Fact<Value>)
    ensures StepFact(Exact(), Copying(d, s), f) == f[d := if s in f && f[s].Const? then f[s] else Bottom]
  {
    var inst := Copying(d, s);
    assert inst.defs == [d] && inst.uses == [s];
    assert FoldExact(inst, Known(f)) == if s in f && f[s].Const? then Some((d, f[s].value)) else None;
  }

  lemma StepLiteral(d: Var, f: Fact<Value>)
    ensures StepFact(Exact(), Literal(d), f) == f[d := Const(5)]
  {
    assert Literal(d).defs == [d];
  }

  /** From one set of facts to the next, the edges of `n` carry `out`, and the others what they carried. */
  ghost predicate Changed(q: Cfg, m: map<Slot, Fact<Value>>, m': map<Slot, Fact<Value>>, n: BlockId, out: Fact<Value>) {
    m.Keys == m'.Keys == Slots(q)
    && forall e {:trigger m'[On(e)]} :: e in q.edges ==> m'[On(e)] == if q.edges[e].source == n then out else m[On(e)]
  }
}
