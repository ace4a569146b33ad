# cfglib: program analyses and graph transformations

A Dafny model of the dataflow, numbering, builder and rewriting core of cfglib, with proofs of what each part promises
about program runs. Everything verifies with `dafny verify dfyconfig.toml`.

## The system

A program (`Program.dfy`) is a finite map of blocks, each a sequence of instructions with uses, definitions, an optional
transfer and a may-throw mark, and a map of typed edges. A run moves instruction by instruction. An unwind edge leaves its
block just before any instruction that may throw, or at the end of a block where nothing throws; every other edge leaves
after the last instruction. Runs are sequences of positions, so branch and throw choices are quantified over rather than
modelled. Stores are total maps; an operator's result is a function of its operands, and of the step for instructions that
promise no determinism.

| part | files |
|---|---|
| runs, reachability, dominance | `Program`, `Trails`, `Dominance`, `Effects`, `EdgeKinds`, `Sequences`, `Wrappers` |
| what matters to later readers | `Backward`, `BackwardSolve`, `Bits`, `Liveness`, `LivenessSolver`, `DeadCode`, `Pruning` |
| copy and alias propagation | `Substitution`, `CopyPropagation`, `FoundTransfers` |
| value numbering | `Numbering`, `NumberingMeaning`, `NumberingSoundness`, `RepeatedExpressions`, `GlobalNumbering` |
| worklist solvers | `Iteration`, `NodeFixpoint`, `EdgeFixpoint`, `ReachableFacts`, `SolverMeaning` |
| constant propagation | `ConstantPropagation`, `ConstantMeaning`, `EarlyBlocks`, `StrictPropagation`, `ConstantTermination`, `ConstantTiming`, `ExactConstants`, `PatternFacts`, `ConstantDivergence`, `LateRings`, `ConstantSettling`, `Renumbering` |
| expression recovery, union-find | `ExpressionRecovery`, `ExpressionConservation`, `ExpressionRoots`, `UnionFind` |
| rewrite records, block splitting | `Rewrites`, `BlockSplitting`, `SplitPoints`, `GraphMutation` |
| the structured builder | `StructuredCode`, `Builder`, `BuilderLayout`, `BuilderStack`, `BuilderNesting`, `BuilderPaths`, `BuilderFollows`, `BuilderReaches`, `BuilderRuns`, `BuilderShape`, `BuildState` |
| the address builder | `AddressRegions` |

Where cfglib updates state in place (the dominance memo, the numbering tables, the builder state, expression recovery, the
disjoint-set forest, rewrite records, the graph under mutation) the model is a class whose methods are proved against
functions of the old state; the theorems are about those functions.

## Model

| member | source | states |
|---|---|---|
| Trails.FirstEntry | crates/cfglib/src/dataflow/unwind.rs:51-64 | a reachable block is entered by some run that has executed nothing in it, unwind departures included |
| Reachability.Reach | crates/cfglib/src/dataflow/unwind.rs:90-102 | the blocks some path from the start set reaches without entering the avoided block, and no others |
| Program.LeavesExact | crates/cfglib/src/dataflow/unwind.rs:35-64 | an unwind edge out of a block that holds a throwing instruction is taken just before any such instruction and nowhere else; every other edge is taken at the end of its block |
| Program.NextExact | crates/cfglib/src/dataflow/unwind.rs:35-64 | control moves over an instruction, or along an edge to the start of its target, and in no other way |
| Program.ExecWrites | crates/cfglib/src/dataflow/copy_propagation.rs:41-65 | a copy or alias gives each destination the value its source had, all reads before any write; any other instruction what its operation makes of its operands' values |
| Dominance.DominanceExact | crates/cfglib/src/dataflow/copy_propagation.rs:154-166 | for a reachable point, the block and unwind test answers yes exactly when every run that arrives there has executed the dominating instruction to completion |
| Dominance.DominatesComplete | crates/cfglib/src/dataflow/copy_propagation.rs:154-166 | when the test answers no, some run arrives without having executed the instruction |
| PointDominanceQuery.PointDominance.Query | crates/cfglib/src/dataflow/copy_propagation.rs:154-166 | answers the dominance question; the memo changes and stays valid |
| PointDominanceQuery.PointDominance.AfterUnwind | crates/cfglib/src/dataflow/copy_propagation.rs:167-172 | the blocks an unwind out of the block reaches without entering it again; memoized once and never changed |
| Substitutions.AdmittedEqual | crates/cfglib/src/dataflow/copy_propagation.rs:180-254 | wherever an admitted transfer has always run, destination and source hold one value |
| Substitutions.StaleSplice | crates/cfglib/src/dataflow/copy_propagation.rs:180-254 | a run that saw the source change after the transfer could be spliced into one that never ran the transfer |
| CopyPropagation.CollectSites | crates/cfglib/src/dataflow/copy_propagation.rs:186-201 | the site tables list each point once for every definition and every use it makes of a variable |
| CopyPropagation.Guard | crates/cfglib/src/dataflow/copy_propagation.rs:216-240 | accepts a pair exactly when it is admitted: sole definition, stable source, dominated uses |
| CopyPropagation.SoundSubstitutions | crates/cfglib/src/dataflow/copy_propagation.rs:180-254 | every substitution in the table is admitted, and every admitted pair is in the table |
| FoundTransfers.AdmittedExact | crates/cfglib/src/dataflow/copy_propagation.rs:98-240 | a pair is admitted exactly when the instruction is reached and is a copy, or in the alias pass an alias set of equal lengths, that moves source to destination; nothing else writes the destination; the source is never written, or once in every run before; and whatever else reads the destination is reached, and only after the transfer |
| ChainResolver.EndUnique | crates/cfglib/src/dataflow/copy_propagation.rs:265-300 | where following sources stops is unique |
| ChainResolver.Walk | crates/cfglib/src/dataflow/copy_propagation.rs:265-300 | the walk ends on any table, cyclic ones included, and every node it passed ends where it ended |
| ChainResolver.ResolveChains | crates/cfglib/src/dataflow/copy_propagation.rs:265-300 | definition points stay; each source ends its chain and, without cycles, is the one non-key following sources leads to |
| ChainResolver.AdmittedAcyclic | crates/cfglib/src/dataflow/copy_propagation.rs:265-300 | a table of admitted substitutions has no cycle |
| ChainResolver.ChainEqual | crates/cfglib/src/dataflow/copy_propagation.rs:265-300 | along a chain of admitted substitutions every variable holds one value wherever the first has always run |
| CopyPropagation.Propagate | crates/cfglib/src/dataflow/copy_propagation.rs:302-379 | finds exactly the replaceable pairs; afterwards nothing but the transfer itself reads a replaceable destination, and a transfer nothing reads any more is gone; what is left is otherwise the rewritten program |
| FoundTransfers.PropagationFinds | crates/cfglib/src/dataflow/copy_propagation.rs:302-379 | the same of the rewritten and pruned program: every such pair is in the table and no other, and what the pass promises of its readers and its transfer holds |
| FoundTransfers.CopyFound | crates/cfglib/src/dataflow/copy_propagation.rs:98-240 | a block with a copy and a reader: the copy is replaceable and, when only the reader's result leaves the block, cleared away |
| FoundTransfers.DeletedExact | crates/cfglib/src/dataflow/copy_propagation.rs:355-372 | a transfer is deleted exactly when it is of the kind the pass looks at and nothing it writes is read on any path or leaves by a seed |
| PropagationMeaning.PropagationKeepsEffects | crates/cfglib/src/dataflow/copy_propagation.rs:302-379 | along every run the instructions with an effect or a possible throw are the same, in the same order, on the same inputs |
| PropagationMeaning.PropagationPreserves | crates/cfglib/src/dataflow/copy_propagation.rs:302-379 | on every run each surviving instruction reads the values it read before, and each exit-seeded variable ends with the value it had |
| PropagationMeaning.PropagationAddsNothing | crates/cfglib/src/dataflow/copy_propagation.rs:302-379 | every run of the propagated program comes from a run of the original |
| Pruning.PruneSimulates | crates/cfglib/src/dataflow/copy_propagation.rs:355-379 | deleting instructions that define nothing live keeps the stores equal on everything live, along every run |
| Pruning.PruneIsOnto | crates/cfglib/src/dataflow/copy_propagation.rs:355-379 | every run of the pruned program is a pruned run of the original |
| Pruning.RetainAll | crates/cfglib/src/dataflow/copy_propagation.rs:355-373 | in-place retention leaves exactly the pruned blocks |
| Numbering.NumberExprs | crates/cfglib/src/analysis/value_numbering.rs:144-191 | where an expression key that numbering has changed comes from |
| NumberingSoundness.OriginUnique | crates/cfglib/src/analysis/value_numbering.rs:144-191 | an expression key has one instruction that introduced its number |
| NumberingSoundness.GlobalNumberingSound | crates/cfglib/src/analysis/value_numbering.rs:144-191 | a redundant instruction computes what the dominating instruction with its number computed most recently, on every run |
| GlobalNumbering.NumberingTables.NumberInstruction | crates/cfglib/src/analysis/value_numbering.rs:144-191 | updates the tables in place to what the numbering step says, reporting the number and whether it was known |
| GlobalNumbering.NumberLocally | crates/cfglib/src/analysis/value_numbering.rs:200-218 | the local numbering of a block from fresh tables: numbers for exactly the pure instructions that define something, and every repetition with unwritten operands listed with the number of the first |
| GlobalNumbering.BlockRepeats | crates/cfglib/src/analysis/value_numbering.rs:144-191 | exactly the pure instructions that define something have a number; of two that apply one operator to one operand list, no operand written from the first on, the second is redundant and has the number of the first |
| RepeatedExpressions.CongruentFound | crates/cfglib/src/analysis/value_numbering.rs:144-191 | so is one whose operands hold, position by position, the values the operands of an earlier instruction of the same operator held: the same unwritten variable, or variables last written by instructions with one number |
| GlobalNumbering.LocalIsGlobal | crates/cfglib/src/analysis/value_numbering.rs:200-218 | local numbering is global numbering of the block on its own, so it is sound as well |
| GlobalNumbering.SideDefinitions | crates/cfglib/src/analysis/value_numbering.rs:338-376 | the variables defined on paths between a block and its immediate dominator, and no others |
| NumberingSoundness.EntryDescribes | crates/cfglib/src/analysis/value_numbering.rs:338-376 | entering a block, its starting tables describe the store: what they took from the immediate dominator still holds, since every variable a side path or the unwound suffix writes has been forgotten, and the rest is numbered afresh |
| NumberingSoundness.RunDescribes | crates/cfglib/src/analysis/value_numbering.rs:144-191 | at every point of every run the tables describe the store: each variable holds what its number stands for, and each key what its dominating instruction last computed |
| GlobalNumbering.NumberBlock | crates/cfglib/src/analysis/value_numbering.rs:385-461 | numbers one block under what its dominator handed it, with an undo scope that restores the tables |
| GlobalNumbering.ExitScope | crates/cfglib/src/analysis/value_numbering.rs:463-477 | leaving a scope gives back the tables from before it; only the fresh-number counter has grown |
| GlobalNumbering.NumberSubtree | crates/cfglib/src/analysis/value_numbering.rs:260-294 | after a block's whole dominator subtree the tables are as before it, and every block of the subtree is numbered as its dominator's suffix demands |
| GlobalNumbering.Compute | crates/cfglib/src/analysis/value_numbering.rs:245-294 | every block of the dominator tree is numbered under its immediate dominator, every repetition in a block or down the tree is found, and the value count exceeds every number given |
| GlobalNumbering.RepeatFound | crates/cfglib/src/analysis/value_numbering.rs:245-461 | an expression computed again in a block further down the dominator tree is redundant and has the number of the first computation, when neither the blocks on the way nor any side path writes an operand and no unwind leaves before the first computation is done |
| RepeatedExpressions.KnownOnEntry | crates/cfglib/src/analysis/value_numbering.rs:296-461 | an expression a block knows is known on entry to its child in the tree under the same condition |
| GlobalNumbering.ListedRedundantSound | crates/cfglib/src/analysis/value_numbering.rs:245-294 | each instruction the result lists as redundant, on every run that is about to execute it, computes what an earlier dominating listed instruction last computed |
| DeadCode.Replay | crates/cfglib/src/analysis/dead_code.rs:195-217 | the live set before the block, and exactly the instructions nothing after them needs, last first |
| DeadCode.NeededLiveIn | crates/cfglib/src/analysis/dead_code.rs:227-258 | the needed-set worklist ends with facts that are justified by paths and closed |
| DeadCode.Compute | crates/cfglib/src/analysis/dead_code.rs:99-151 | lists in block order instructions without an effect, a throw or an observer, every such one that nothing reads and no seed names among them, and the unreachable blocks |
| DeadCode.DeadExact | crates/cfglib/src/analysis/dead_code.rs:99-151 | an instruction is listed exactly when it has no effect, throw or observer, defines something, and none of its definitions leads to a read that counts or to a seed |
| DeadCode.NeededIsKept | crates/cfglib/src/analysis/dead_code.rs:195-217 | what the facts call needed is what paths through kept readers keep |
| Backward.FactsExact | crates/cfglib/src/analysis/dead_code.rs:227-258 | facts that are justified and closed hold exactly the variables that matter, at every position |
| DeadCodeSoundness.DeletionUnobserved | crates/cfglib/src/analysis/dead_code.rs:99-151 | deleting everything listed at once: each remaining instruction reads the same values and each seeded variable ends the same, along unwinds too |
| DeadCodeSoundness.EffectsKept | crates/cfglib/src/analysis/dead_code.rs:99-151 | along every run the instructions with an effect, a possible throw or an observer are the same, in the same order, on the same inputs, before and after the deletion |
| DeadCodeSoundness.DeletionAddsNothing | crates/cfglib/src/analysis/dead_code.rs:99-151 | every run of what is left is a run of the original with the deleted steps skipped |
| DeadCodeSoundness.OnePassIsEnough | crates/cfglib/src/analysis/dead_code.rs:227-258 | after the deletion nothing is dead |
| DeadCodeSoundness.ForcedAgain | crates/cfglib/src/analysis/dead_code.rs:99-125 | the instructions the pruned program forces by itself are the ones forced before, where they now stand |
| DeadCodeSoundness.SecondRunEmpty | crates/cfglib/src/analysis/dead_code.rs:99-151 | running the analysis again on what is left lists no instruction |
| Bits.OnesOf | crates/cfglib/src/dataflow/bits.rs:194-235 | lists the indices of the set bits in increasing order |
| Bits.TransferWordHas | crates/cfglib/src/dataflow/liveness.rs:360-366 | what one word of the closed-form transfer holds, bit by bit |
| RowTransfer.ClosedForm | crates/cfglib/src/dataflow/liveness.rs:255-299 | the closed row transfer equals the backward replay instruction by instruction |
| LivenessMeaning.LivenessExact | crates/cfglib/src/dataflow/liveness.rs:313-393 | a variable is live at a position exactly when some path reaches a read of it, or a seed that names it, before any definition |
| LivenessMeaning.CoarseContains | crates/cfglib/src/dataflow/liveness.rs:137-163 | every solution of the coarser block problem contains the exact live sets |
| LivenessSolver.RowsOf | crates/cfglib/src/dataflow/liveness.rs:255-299 | the rows of a block as sets: exposed reads, writes, seed, and definitions before the first throw |
| LivenessSolver.SolveRows | crates/cfglib/src/dataflow/liveness.rs:329-376 | the bit-row worklist ends with facts that are justified, closed and supported |
| LivenessSolver.Solve | crates/cfglib/src/dataflow/liveness.rs:313-421 | live-in and live-out of every block: what some path from there reads, or a seed names, before anything defines it |
| LivenessSolver.LivePoints | crates/cfglib/src/dataflow/liveness.rs:539-563 | the live set before and after every instruction of a block |
| LivenessSolver.LiveOnUnwind | crates/cfglib/src/dataflow/liveness.rs:565-578 | what an unwind out of the block reads |
| LivenessSolver.ReplayGivesLiveIn | crates/cfglib/src/dataflow/liveness.rs:339-393 | replaying a block from its live-out with its unwind set gives back its live-in |
| NodeFixpoint.TrySolve | crates/cfglib/src/dataflow/node_fixpoint.rs:367-426 | visits queued nodes, lowest first, until done, rejected, or out of steps |
| NodeFixpoint.Solve | crates/cfglib/src/dataflow/node_fixpoint.rs:117-140 | a monotone problem of bounded height is solved without a limit |
| NodeFixpoint.SolvedEquations | crates/cfglib/src/dataflow/node_fixpoint.rs:367-426 | at a completed solve every seed meets its equations, and every other live node does or was never touched |
| SolverMeaning.NodesSolved | crates/cfglib/src/dataflow/node_fixpoint.rs:367-474 | the same told in the graph, for both directions: the fact into a node is the boundary fact of the entry met from the left with what flows out of its neighbours, or the boundary fact when nothing is upstream |
| NodeFixpoint.SolvedLeast | crates/cfglib/src/dataflow/node_fixpoint.rs:367-426 | the facts are below those of every solution |
| NodeFixpoint.LimitsAgree | crates/cfglib/src/dataflow/node_fixpoint.rs:367-426 | two limits that let a solve finish give the same facts after the same number of visits |
| Iteration.LawfulEnds | crates/cfglib/src/dataflow/edge_fixpoint.rs:527-577 | every solve of a monotone system of bounded height ends |
| Iteration.RunBelow | crates/cfglib/src/dataflow/edge_fixpoint.rs:527-577 | no visit overtakes a solution, and where there is one no node rejects its facts |
| EdgeFixpoint.VisitAlong | crates/cfglib/src/dataflow/edge_fixpoint.rs:590-626 | one visit recomputes a node from its upstream edges and queues the receiver of every edge whose fact changed |
| EdgeFixpoint.TrySolve | crates/cfglib/src/dataflow/edge_fixpoint.rs:527-577 | visits queued nodes, lowest first, until done, rejected, or out of steps |
| EdgeFixpoint.Solve | crates/cfglib/src/dataflow/edge_fixpoint.rs:364-380 | a monotone problem of bounded height is solved without a limit |
| EdgeFixpoint.SolvedEquations | crates/cfglib/src/dataflow/edge_fixpoint.rs:590-648 | at a completed solve, monotone or not, every seed meets its node and edge equations, and every other live node does or was never touched |
| SolverMeaning.EdgesSolved | crates/cfglib/src/dataflow/edge_fixpoint.rs:590-648 | the same told in the graph, for both directions: the fact into a node is its boundary fact met from the left with those on its edges, and each edge on the other side carries its own transfer |
| EdgeFixpoint.SolvedLeast | crates/cfglib/src/dataflow/edge_fixpoint.rs:590-648 | the facts are below those of every solution on any set the seeds flow within |
| EdgeFixpoint.SolvedConfined | crates/cfglib/src/dataflow/edge_fixpoint.rs:527-577 | outside a set the seeds flow within every fact keeps its bottom |
| EdgeFixpoint.RejectedUnsolvable | crates/cfglib/src/dataflow/edge_fixpoint.rs:514-577 | when an operation rejects its facts the problem has no solution there |
| EdgeFixpoint.LimitsAgree | crates/cfglib/src/dataflow/edge_fixpoint.rs:527-577 | two limits that let a solve finish give the same facts after the same number of visits |
| ReachableFacts.ReachedExactly | crates/cfglib/src/dataflow/edge_fixpoint.rs:225-284 | after a completed solve a node has facts exactly when a node with an entry fact flows to it |
| ReachableFacts.ReachableEnds | crates/cfglib/src/dataflow/edge_fixpoint.rs:225-284 | the lifting of a monotone problem of bounded height is solved after some number of visits |
| ReachableFacts.ReachableLeast | crates/cfglib/src/dataflow/edge_fixpoint.rs:225-284 | a completed solve has facts only where every solution has them, and none above those |
| ReachableFacts.SolveReachable | crates/cfglib/src/dataflow/edge_fixpoint.rs:225-284 | solves the lifting without a limit: the least solution, or a rejection, and then there is no solution |
| Constants.StepInPlace | crates/cfglib/src/dataflow/constant_propagation.rs:161-229 | of what the instruction defines, the one definition its fold answers for is constant and every other overdefined; the rest stays, and the known constants stay in step |
| Constants.ReplayBlock | crates/cfglib/src/dataflow/constant_propagation.rs:210-229 | the facts before each instruction and at the block's end, each what the last instruction leaves of the one before, and the meet of those before each throw |
| Constants.MeetSinks | crates/cfglib/src/dataflow/constant_propagation.rs:52-73 | the three-level meet moves down from both arguments and is monotone |
| ConstantMeaning.MeetGreatest | crates/cfglib/src/dataflow/constant_propagation.rs:52-73 | the three-level meet is the greatest lower bound |
| ConstantPropagation.ConstantsSound | crates/cfglib/src/dataflow/constant_propagation.rs:186-283 | whatever a completed solve calls constant at a block's entry or exit holds that constant there on every run |
| ConstantMeaning.SolvedMeans | crates/cfglib/src/dataflow/constant_propagation.rs:231-308 | at a completed solve a block is entered with the greatest lower bound of what its edges carry, at the entry with nothing known; its folds are replayed; an unwind edge carries the greatest lower bound of the facts before the throws and any other edge the fact at the end |
| ConstantMeaning.FoldReachesEnd | crates/cfglib/src/dataflow/constant_propagation.rs:161-175 | the constant a fold answers for is known at the end of the block unless a later instruction writes the variable again |
| ConstantTermination.Compute | crates/cfglib/src/dataflow/constant_propagation.rs:298-308 | solves over the blocks reachable from the entry |
| ConstantTermination.EarlyAcyclicEnds | crates/cfglib/src/dataflow/constant_propagation.rs:231-283 | the solve ends when no block that is visited before anything has reached it leads to a cycle, cycles through the entry aside |
| ConstantTermination.ComputeAcyclic | crates/cfglib/src/dataflow/constant_propagation.rs:298-308 | on such a graph no limit is needed |
| ConstantTiming.OrderedOnTime | crates/cfglib/src/dataflow/constant_propagation.rs:231-283 | on an ordered graph every visit enters its block with a fact that decides every variable |
| ConstantTiming.OrderedExact | crates/cfglib/src/dataflow/constant_propagation.rs:231-283 | a graph is ordered exactly when no program on it has a block that is visited before it is entered with such a fact |
| ConstantDivergence.NeverEnds | crates/cfglib/src/dataflow/constant_propagation.rs:231-283 | on every graph where an early block lies on a two-block cycle entered in time elsewhere, some program with a lawful domain and a correct fold is never solved |
| ConstantDivergence.SmallestNeverEnds | crates/cfglib/src/dataflow/constant_propagation.rs:231-283 | the smallest such graph, with three blocks |
| ConstantDivergence.SwingLeadsRound | crates/cfglib/src/dataflow/constant_propagation.rs:231-283 | those graphs have an early block that leads to a cycle |
| LateRings.NeverEnds | crates/cfglib/src/dataflow/constant_propagation.rs:231-283 | the same on every graph with a cycle of any length that comes wholly before whatever enters it |
| Renumbering.NumberingExact | crates/cfglib/src/dataflow/constant_propagation.rs:231-283 | every program on a graph is solved, however its blocks are numbered, exactly when every cycle goes through the entry |
| Renumbering.EntersEnds | crates/cfglib/src/dataflow/constant_propagation.rs:231-283 | the first half of that, in every lawful domain |
| Renumbering.CycleNeverEnds | crates/cfglib/src/dataflow/constant_propagation.rs:231-283 | the second half: a numbering and a program, with a correct fold, that is never solved |
| ConstantSettling.MaskedEnds | crates/cfglib/src/dataflow/constant_propagation.rs:231-283 | a graph on which an early block leads to a cycle and every program is solved all the same |
| ConstantSettling.AcyclicNotNeeded | crates/cfglib/src/dataflow/constant_propagation.rs:231-283 | so the condition under which the solve ends is not necessary |
| ExpressionRecovery.Recovery.WalkInstruction | crates/cfglib/src/analysis/expr.rs:94-150 | one instruction updates pending, overwritten and generation counts in place as the specification says |
| ExpressionRecovery.Recover | crates/cfglib/src/analysis/expr.rs:94-159 | the roots of a block, in order of the instructions that made them |
| ExpressionRecovery.RootsMean | crates/cfglib/src/analysis/expr.rs:94-159 | each root, evaluated just before the instruction that made it, gives the value it writes |
| ExpressionRecovery.RootsConserve | crates/cfglib/src/analysis/expr.rs:203-250 | every recorded definition is one root or is absorbed by exactly one operand of one later instruction, which is the block's only read of it and may itself record no tree |
| ExpressionConservation.AbsorbableExact | crates/cfglib/src/analysis/expr.rs:203-230 | an operand absorbs what is pending exactly when the instructions say so: the variable's only read, its last write left a tree, and nothing that tree reads has been written since |
| ExpressionConservation.BooksTrack | crates/cfglib/src/analysis/expr.rs:94-150 | before every instruction the pending, generation and absorption records are what the instructions written so far say |
| ExpressionConservation.RootsExact | crates/cfglib/src/analysis/expr.rs:94-159 | the roots are exactly the recorded definitions that no operand takes in, and each root's tree is the one the instructions tell |
| ExpressionConservation.ConservedExact | crates/cfglib/src/analysis/expr.rs:116-137 | every recorded definition sits inside some root's tree exactly when no instruction without definitions takes one in |
| ExpressionConservation.EachConserved | crates/cfglib/src/analysis/expr.rs:94-159 | when every instruction with operands defines something, each recorded definition is one root or is taken in by instructions that record a definition, and sits inside exactly one root's tree |
| ExpressionConservation.InsideIsPart | crates/cfglib/src/analysis/expr.rs:203-230 | a definition that sits inside another has its own tree as a part of the other's |
| ExpressionConservation.TakenOnce | crates/cfglib/src/analysis/expr.rs:203-230 | no two operands take in the same definition |
| ExpressionConservation.ComparisonDropsProduct | crates/cfglib/src/analysis/expr.rs:116-137 | a product read by a comparison that defines nothing: the product is recorded and the block recovers no tree |
| ExpressionRoots.RootsFollowBlock | crates/cfglib/src/analysis/expr.rs:94-250 | the roots are ordered by variable and then by definition; each is a definition its instruction makes, the first one or every one of an opaque instruction, with the constant, operator or opaque node its form says; one that no later operand names, or whose variable is not read just once, is a root |
| ExpressionRoots.FedIntoReader | crates/cfglib/src/analysis/expr.rs:203-230 | a definition whose variable is read just once, by a later operand with nothing in between written, is no root and becomes that operand of its reader's tree |
| Expressions.OneValueExact | crates/cfglib/src/analysis/expr.rs:94-135 | an opaque node can stand for all definitions of its instruction exactly when the instruction writes one value |
| ExpressionRecovery.SharedNodeAmbiguous | crates/cfglib/src/analysis/expr.rs:94-159 | an instruction without a form that writes two values leaves one node that no choice of outputs makes right for both |
| UnionFind.DisjointSet.constructor | crates/cfglib/src/union_find.rs:48-58 | a forest of singletons |
| UnionFind.DisjointSet.Reset | crates/cfglib/src/union_find.rs:60-65 | the same, in place |
| UnionFind.DisjointSet.Push | crates/cfglib/src/union_find.rs:68-73 | one more singleton; all representatives stay |
| UnionFind.DisjointSet.Find | crates/cfglib/src/union_find.rs:92-98 | the representative; halving moves no element to another class |
| UnionFind.DisjointSet.FindRoot | crates/cfglib/src/union_find.rs:109-114 | the same answer, changing nothing |
| UnionFind.DisjointSet.Union | crates/cfglib/src/union_find.rs:124-139 | merges exactly the two classes under the root of higher rank, and keeps the balance |
| UnionFind.DisjointSet.UnionTowardMin | crates/cfglib/src/union_find.rs:150-163 | merges exactly the two classes under the lower root |
| Forests.HalvingKeepsRoots | crates/cfglib/src/union_find.rs:92-106 | pointing an element at its grandparent changes no root |
| Forests.LinkRoots | crates/cfglib/src/union_find.rs:124-146 | hanging one root below another moves exactly that tree |
| Forests.LinkBalanced | crates/cfglib/src/union_find.rs:124-146 | linking by rank keeps at least 2^rank elements under a root |
| Forests.ChainsLogarithmic | crates/cfglib/src/union_find.rs:124-146 | every chain of a balanced forest is at most log2 of the element count long |
| Forests.MinimumOfClass | crates/cfglib/src/union_find.rs:150-163 | with unions toward the minimum only, each root is the least of its class |
| Rewrites.DedupMeaning | crates/cfglib/src/rewrite.rs:223-229 | deduplication keeps exactly the values, once each, in order of first occurrence |
| Rewrites.Rewrite.RecordBlock | crates/cfglib/src/rewrite.rs:102-105 | records the deduplicated replacements |
| Rewrites.Rewrite.Compose | crates/cfglib/src/rewrite.rs:126-146 | the composed maps, and the created lists looked up in them |
| Rewrites.ComposeMaps | crates/cfglib/src/rewrite.rs:126-135 | chases replacements through the second record and adds what only it mentions |
| Rewrites.ComposeIsRelational | crates/cfglib/src/rewrite.rs:233-248 | an identity becomes, in order and without repeats, what the second record makes of what the first made of it |
| Rewrites.ComposeAssociative | crates/cfglib/src/rewrite.rs:233-248 | three records compose to the same map whichever pair is composed first |
| Rewrites.CreatedExact | crates/cfglib/src/rewrite.rs:250-264 | created identities end up as what later records made of them, for every later record, exactly when the first record gives back its own created list |
| Rewrites.CreatedUnmoved | crates/cfglib/src/rewrite.rs:250-264 | for a record that renames or removes but does not split, exactly when it leaves each created identity alone |
| Rewrites.EmptyMovesCreated | crates/cfglib/src/rewrite.rs:250-264 | a record that exchanges two identities loses track of a created one when composed with an empty record |
| Rewrites.SwapMovesCreated | crates/cfglib/src/rewrite.rs:250-264 | the same at one concrete record |
| Rewrites.SplitKeepsCreated | crates/cfglib/src/rewrite.rs:250-264 | a record may map a created identity to more than itself and still keep the list right |
| GraphMutation.MutableCfg.MoveOutgoingEdges | crates/cfglib/src/cfg/mutation.rs:414-420 | moves every outgoing edge, kinds and targets kept, to the new source, and nothing when the source is the same |
| GraphMutation.MutableCfg.SplitBlock | crates/cfglib/src/cfg/mutation.rs:216-250 | the split graph, its regions and cleanups, and the record of what became what |
| GraphMutation.SplitFields | crates/cfglib/src/cfg/mutation.rs:216-250 | the head keeps the instructions before the point, the new block has the others and all outgoing edges with their kinds and targets, and a fallthrough edge joins the two |
| GraphMutation.MutableCfg.SplitBlockAtPoints | crates/cfglib/src/cfg/mutation.rs:257-293 | rejects bad points before any change; otherwise the pieces in order, their instructions concatenating to the original, one record that maps the block to exactly the pieces, every region, handler body and cleanup holding the pieces where it held the block, and every other block as it was |
| GraphMutation.FirstBadExact | crates/cfglib/src/cfg/mutation.rs:265-281 | the error is that of the first point outside the block or not after the one before it |
| Splits.SplitExact | crates/cfglib/src/cfg/mutation.rs:190-250 | every crossing survives a split exactly when no throw before the point is cut off from an unwind edge |
| Splits.SplitLosesUnwind | crates/cfglib/src/cfg/mutation.rs:190-250 | a block whose throw loses its handler |
| Splits.RunsBack | crates/cfglib/src/cfg/mutation.rs:190-250 | when nothing is cut off, runs of the split graph are runs of the original at the same place with the same store |
| Splits.RunsForward | crates/cfglib/src/cfg/mutation.rs:190-250 | and runs of the original are runs of the split graph |
| SplitPoints.AllRunsForward | crates/cfglib/src/cfg/mutation.rs:257-293 | the same for several points at once, forward |
| SplitPoints.AllRunsBack | crates/cfglib/src/cfg/mutation.rs:257-293 | and back |
| SplitPoints.PiecesConcat | crates/cfglib/src/cfg/mutation.rs:257-293 | the pieces concatenate to the block |
| SplitPoints.ComposePieces | crates/cfglib/src/cfg/mutation.rs:257-293 | composing the records of the single splits maps the block to the pieces |
| BuildStates.BuildState.Process | crates/cfglib/src/builder.rs:114-166 | one instruction changes graph, current block and scope stack as the specification says, or fails and reports the same error |
| BuildStates.BuildState.CloseConditional | crates/cfglib/src/builder.rs:209-232 | joins all arms, and adds the false edge when there was no alternate |
| BuildStates.BuildState.CloseSwitch | crates/cfglib/src/builder.rs:268-288 | joins all arms and all breaks behind the switch |
| BuildStates.BuildState.CloseLoop | crates/cfglib/src/builder.rs:302-318 | closes the back edge and joins all breaks behind the loop |
| BuildStates.BuildState.RecordBreak | crates/cfglib/src/builder.rs:320-328 | records the block in the innermost loop or switch, or reports that there is none |
| BuildStates.BuildState.TrimTrailingEmpty | crates/cfglib/src/builder.rs:482-492 | drops trailing blocks that are empty and that no edge enters |
| BuildStates.Build | crates/cfglib/src/builder.rs:470-480 | the graph, or the error of the first instruction that does not fit |
| BuilderStack.StackPlaces | crates/cfglib/src/builder.rs:114-166 | from any state the builder can be in, a well-nested program is placed exactly where its structure says |
| BuilderNesting.AcceptedReads | crates/cfglib/src/builder.rs:114-166 | whatever has been accepted reads as open regions around well-nested code |
| BuilderRuns.BuildAccepts | crates/cfglib/src/builder.rs:470-480 | the build accepts exactly the well-nested streams |
| BuilderFollows.Follow | crates/cfglib/src/builder.rs:180-429 | every path from placed code is an execution of it and then whatever its outcome leads to |
| BuilderReaches.Reach | crates/cfglib/src/builder.rs:180-429 | every execution of placed code is a path to where its outcome leads |
| BuilderRuns.BuildPreservesRuns | crates/cfglib/src/builder.rs:470-480 | the graph shows exactly the executions of the structured program, choices included |
| BuilderRuns.BuildPreservesOutcomes | crates/cfglib/src/builder.rs:470-480 | executions that complete are the paths to the end point, and those that stop the paths to a dead end elsewhere |
| EffectRuns.NothingFollows | crates/cfglib/src/builder.rs:146-152 | an execution of a return, a termination or an unconditional jump ends with it |
| EffectRuns.RestFollows | crates/cfglib/src/builder.rs:116-124 | an execution of a plain instruction, a call or an instruction that may throw goes on with the rest; so does one of a label |
| EffectRuns.LeavesRegion | crates/cfglib/src/builder.rs:142-144 | a break or a continue leaves |
| EffectRuns.MayLeave | crates/cfglib/src/builder.rs:143-164 | a conditional return, break or continue leaves when its condition holds and goes on with the rest when it does not; a conditional jump goes on when its condition fails |
| BuilderShape.BuiltFits | crates/cfglib/src/builder.rs:114-492 | in every graph a build returns the edges out of a block are those its last instruction calls for, kinds included; only plain instructions and those that lead a block are followed by another; what returns, terminates or jumps ends its block and no edge leaves it; the last block is needed |
| BuilderShape.BuiltKeepsOrder | crates/cfglib/src/builder.rs:114-480 | the blocks one after the other hold the stream in its order, every instruction once, except what closes a region |
| BuilderShape.BuildErrors | crates/cfglib/src/builder.rs:114-480 | a refusal names the first instruction that fits no scope, by its effect, or counts the regions still open |
| BuilderRuns.TrimKeeps | crates/cfglib/src/builder.rs:482-492 | trimming drops only empty, unreachable blocks off the end and changes no path |
| BuilderRuns.NoCaseRuns | crates/cfglib/src/builder.rs:234-288 | what precedes the first case counts as an arm even when it is empty, so a switch can run none of its cases |
| BuilderRuns.AnyAlternateRuns | crates/cfglib/src/builder.rs:192-232 | a second alternate is accepted, and either may run when the condition is false |
| GraphMutation.MutableCfg.ExtendExceptionMetadataToTail | crates/cfglib/src/cfg/regions.rs:151-169 | every region, handler body and cleanup of the head takes in the tail |
| GraphMutation.ToSplit | crates/cfglib/src/cfg/regions.rs:151-169 | after all splits each piece belongs wherever the block did, nothing else changes place, and cleanups resume from the last piece |
| AddressTables.InspectInstructions | crates/cfglib/src/builder/address.rs:646-678 | the first faulty instruction in stream order, or addresses, transfers and code end |
| AddressTables.FirstFaultNamed | crates/cfglib/src/builder/address.rs:646-678 | the error is that of the first instruction that is empty, ends outside the address space or does not come after the one before, and says which |
| AddressTables.TransfersExact | crates/cfglib/src/builder/address.rs:662-666 | the transfers are the instructions that end a block, in order |
| AddressTables.ValidateHandlers | crates/cfglib/src/builder/address.rs:708-746 | the first faulty table entry in table order, or the instruction ranges and entries; marks exactly their bounds |
| AddressRegions.TouchedExact | crates/cfglib/src/builder/address.rs:708-746 | an instruction is marked exactly when an entry's range covers it or ends at it, or it is an entry's handler |
| AddressTables.MarkActive | crates/cfglib/src/builder/address.rs:737-744 | the active-range sweep never underflows and marks every covered instruction a leader |
| AddressTables.PopulateBlocks | crates/cfglib/src/builder/address.rs:755-788 | blocks cut the stream into contiguous runs that start at leaders |
| AddressTables.ProtectedAlone | crates/cfglib/src/builder/address.rs:708-788 | every protected instruction is alone in its block |
| AddressRegions.GroupByRange | crates/cfglib/src/builder/address.rs:802-817 | one draft per distinct range, holding its table entries in table order |
| AddressRegions.SortRegisters | crates/cfglib/src/builder/address.rs:819-823 | sorted by width, stably, so that enclosing ranges come first |
| AddressRegions.FindParent | crates/cfglib/src/builder/address.rs:845-850 | the narrowest strictly enclosing range registered earlier |
| AddressRegions.ParentOfAll | crates/cfglib/src/builder/address.rs:845-850 | that parent is the narrowest of all ranges that enclose the draft |
| AddressRegions.RegionsFollowTable | crates/cfglib/src/builder/address.rs:802-863 | entries share a region exactly when they have one range, in table order; wider ranges are registered first and, among equals, those the table names first |
| AddressRegions.ParentFollowsTable | crates/cfglib/src/builder/address.rs:845-850 | a region has a parent exactly when the range of some entry strictly contains its own, and the parent is the narrowest of these |
| AddressRegions.RefsMatchTable | crates/cfglib/src/builder/address.rs:825-863 | one handler reference per table entry, in table order, each to its own handler |
| AddressRegions.ProtectsRange | crates/cfglib/src/builder/address.rs:790-864 | a table entry's region protects a block exactly when the block is one instruction in the entry's address range |
| AddressRegions.BuildRegions | crates/cfglib/src/builder/address.rs:545-640 | succeeds exactly when the instructions are nonempty and in increasing order and every table entry fits them; then blocks, regions and references that fit the stream and the table, or else the first fault |
| AddressTables.ReadHandler | crates/cfglib/src/builder/address/route.rs:129-149 | a table entry is accepted exactly when its range is nonempty, its start and its handler are instruction addresses and its end is one or the end of the code; the error is that of the first failing test, and the positions are those whose addresses lie in the range |
| AddressRegions.PlaceableExact | crates/cfglib/src/builder/address/route.rs:129-149 | told in the stream: the range starts at an instruction and ends at one or where the last of them ends, and the handler is an instruction |

## Findings

Five places where the code does less than its documentation or its name suggests. Each is proved at an input, with the
condition under which the code does what is expected.

- **Constant propagation can run for ever.** The solve queues every reachable block and visits the lowest first, so a block
  can be visited before anything has entered it. Its entry fact then knows no variable, a variable that is absent reads as
  not constant, and the block sends out facts that are too low; when the real facts arrive they rise again, so the transfer
  is not monotone. Soundness is not affected (`ConstantPropagation.ConstantsSound` holds of every solve that ends).
  - However the blocks are numbered, every program on a graph is solved exactly when every cycle of reachable blocks goes
    through the entry (`Renumbering.NumberingExact`). `EntersEnds` is one half, in every lawful domain; `CycleNeverEnds` is
    the other: from any other cycle it makes a numbering, and a program with a correct fold, that no number of steps solves.
  - Under one given numbering, no block is visited too soon, in any program, exactly when every reachable block but the entry
    has a reachable predecessor with a lower identity (`ConstantTiming.OrderedExact`), and the solve ends whenever no early
    block leads to a cycle off the entry (`ConstantTermination.EarlyAcyclicEnds`).
  - Two families of numbered graphs on which some program is never solved: a cycle of any length whose blocks are all lower
    than whatever enters it (`LateRings.NeverEnds`), and an early block on a two-block cycle that another block enters in
    time (`ConstantDivergence.NeverEnds`; the smallest of these has three blocks, `SmallestNeverEnds`).
  - Under one given numbering, "no early block leads to a cycle" is not necessary: `ConstantSettling.MaskedEnds` is a family
    of graphs where an early block does lead to a cycle and every program in every lawful domain is solved. Between that
    condition and the two families, whether a solve ends depends on which facts fall and which rise in the same visit.
- **A record composed with an empty one can lose a created identity.** `Rewrite::compose` looks the created lists up in the
  record that has already been composed, not in the second record. With a first record that exchanges two identities, even
  composing with an empty record turns the created one into the other (`Rewrites.EmptyMovesCreated`). The list is right, for
  every later record, exactly when chasing the created list through the first record gives that list back up to repeats
  (`CreatedExact`); when the record only renames or removes, that means it maps each created identity to itself
  (`CreatedUnmoved`), while a record that splits may do more (`SplitKeepsCreated`).
- **A split can take a throw away from its handler.** Splitting moves all outgoing edges to the tail, unwind edges included,
  and the documentation at crates/cfglib/src/cfg/mutation.rs:178-183 says that a split changes nothing any instruction does.
  An instruction before the split point that may throw then has no unwind edge (`Splits.SplitLosesUnwind`). Every crossing
  survives exactly when the block has no unwind edge or nothing before the split point may throw (`Splits.SplitExact`), and under that
  condition runs correspond both ways.
- **One opaque node can stand for two values.** An instruction with no recovered form that writes several variables records
  the same node for each of them, so no choice of outputs makes the node right for all
  (`ExpressionRecovery.SharedNodeAmbiguous`). One node can stand for all of an instruction's definitions, under every
  semantics, exactly when the instruction writes one value (`Expressions.OneValueExact`).
- **A definition can vanish into an instruction that defines nothing.** An instruction with an operator form but no
  definitions, such as a comparison that only sets flags, absorbs its operands' definitions and then drops the tree, since it
  has no definition to record it under. The absorbed definition is then in no root and in no tree
  (`ExpressionConservation.ComparisonDropsProduct`), although the documentation at crates/cfglib/src/analysis/expr.rs:65-67
  promises a root for each definition that is not inlined into a later expression. Every recorded definition sits inside a
  root's tree exactly when no instruction without definitions has an operand that can absorb one, which can be read off the
  forms, definitions, use counts and the writes in between (`ConservedExact`); in particular when every instruction with
  operands defines something (`EachConserved`).

## Left out

- Variables, values, addresses and identities are integers; payloads, edge weights, labels and consumer errors carry no
  property and are dropped.
- The 32-bit width of value numbers: fresh numbers never wrap in the model.
- Liveness words are sequences of 64 booleans rather than `u64`; the bit tricks inside one word are modelled by their effect
  on bits.
- The dominator tree is given by its specification over paths, and the numbering walk takes the tree as a datatype; how the
  tree is computed is not part of this model. The graph store likewise: maps of blocks and edges with fresh identities.
- `Worklist` and its queued flags are one finite set popped at its minimum.
- Counters kept for statistics: what propagation changed, liveness steps, and the scratch buffers all solvers reuse. The
  reachability memo inside side-path definitions is recomputed.
- What a consumer's instruction type promises (operands map one to one under rewriting, transfers copy pairwise, pure
  instructions are deterministic) is the contract `Ok` on instructions, taken from the trait documentation.
- Constant domains are any domain with a lawful meet and a fold that is correct for the semantics.
- Builder runs are event sequences that show instructions and choices. A jump ends its block and the execution, because
  its edge is only wired by `resolve_jump_edges`, which is left out.
- The builder treats what comes before the first case as an arm, even when it is empty, and accepts a second alternate; the
  executions of structured programs follow it (`BuilderRuns.NoCaseRuns`, `BuilderRuns.AnyAlternateRuns`) rather than a
  source language that would forbid or ignore either.
- `then_renumbered` and the redirecting edge operations of the mutable graph.
- AddressRegions.BuildRegions: does not model leader discovery from flow, normal and exception edges, routes, call sites,
  handler kinds or the choice of entry; the leaders flow calls for are an input, extended by the handler table. The stable
  sort of region drafts is an insertion sort.
- SSA, sparse conditional constants, reaching definitions, memory SSA, control-tree structuring, HLIL, text and DOT output,
  metrics and subgraphs: separate modules, or single passes that would only add easy members.
- ConstantTermination.EarlyAcyclicEnds: under one given numbering, sufficient for the solve to end but not necessary; the
  exact condition is stated over all numberings, see Findings.
