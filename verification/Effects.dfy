/** What a run does that the world can notice. */
module Effects {
  import opened Wrappers
  import opened Program
  import opened Pruning

  /** An instruction with an effect, a possible throw, or an observer has executed, on these inputs. */
  datatype Effect = Effect(op: int, inputs: seq<Value>, env: int)

  predicate Noticed(p: Cfg, observed: set<Pos>, a: Pos)
    requires AtInst(p, a)
  {
    InstAt(p, a).effectful || InstAt(p, a).mayUnwind || a in observed
  }

  /** The noticed steps of a run, oldest first. */
  function EffectsOf(p: Cfg, sem: Semantics, observed: set<Pos>, r: Run): seq<Effect> {
    match r
    case Enter(_, _) => []
    case Step(prev, at, env) =>
      EffectsOf(p, sem, observed, prev) +
      if Execs(p, prev.at, at) && Noticed(p, observed, prev.at) then
        [Effect(InstAt(p, prev.at).op, ReadAll(StoreOf(p, sem, prev), InstAt(p, prev.at).uses), env)]
      else []
  }
}
