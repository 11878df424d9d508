# Datahike query engine and store: a verified model

Datahike is an immutable database with a Datalog query engine, a pull API, time travel over
its history and a store of commits that is garbage collected. This project models the parts of
it whose correctness is not visible in any one function, and proves for all inputs, or for all
runs, what they compute.

| modules | what they model |
|---|---|
| `Options`, `Sequences`, `Datoms` | optional values, elements and positions of sequences, the datom |
| `Relations`, `RelationOps`, `Contexts` | relations with column maps: hash join, sum, product, anti-join, projection; contexts of disjoint relations |
| `Search`, `StrategyTable`, `DecisionTrees` | batch search by substitution and filtering, the table of search strategies, and the compiled decision trees it is made with |
| `Clauses`, `Semantics`, `Schedule`, `Evaluator`, `Flat`, `Loops` | the clause evaluator and its scheduler against a tuple-by-tuple meaning of clauses |
| `Resolving` | which clauses resolve and which raise, from their text and the variables that are bound |
| `Collecting`, `Rules`, `RuleSemantics`, `RuleFrames`, `RuleSoundness`, `RuleTrees`, `RuleCompleteness`, `RuleTermination` | the rule solver against the least fixed point of the rules and its derivations |
| `RuleStatic`, `RuleConnected`, `RuleOutcome` | rule programs whose text says that the solver ends, that it is exact, and that it does not raise |
| `Alternation` | two rules that call each other and keep the solver running for ever |
| `Shortcuts` | where the engine is not exact, with an input for each and the condition under which it is |
| `Pull`, `PullEval`, `PullProps`, `PullLimits`, `PullReads` | the pull frame machine against a direct recursive evaluation, what its recursion limits bound, and its results in terms of the facts of the database |
| `TimeTravel`, `Snapshots` | as-of and since views against the snapshots of a run of transactions |
| `Gc`, `Versions` | commits, branches and garbage collection on a key-value store, over all runs |
| `Lru`, `DatomCache` | the query cache and the cache that counts datoms |
| `Comparators`, `Uuid` | index comparators, sorted merge and diff, UUID order on both platforms |

The meaning everything in the query engine is measured by is small: `Relations.Holds` and
`Relations.Mult` say when, and how often, a relation has an assignment of values to variables;
`Evaluator.Ext` says when an assignment extends another and satisfies a clause;
`RuleSemantics.Derivable` is the least fixed point of a rule program, and
`RuleTrees.Unrepeated` says that a call has a derivation in which no call occurs twice. Code
that works by updating arrays or transients in a loop is a method, proved equal to the function
that specifies it; code that recurs over immutable values is a function.

The main results are `Resolving.ClauseResolves`, `Resolving.ClauseTotal`,
`Semantics.PatternExact`, `Flat.ReorderExact`, `RuleSoundness.RuleSound`,
`RuleCompleteness.RuleComplete`, `RuleCompleteness.RuleExact`, `RuleOutcome.RunFails`,
`RuleOutcome.RulesSolved`, `Alternation.NeverEnds`, `Shortcuts.OutputExact`,
`PullProps.PullExact`, `PullReads.PlainPull`, `PullLimits.RecursionBounded`,
`PullLimits.LimitHonoured`, `Snapshots.AsOfIsSnapshot`, `Versions.RunSound`, `Gc.KeptExactly`,
`DecisionTrees.CompilesExactly`, `Lru.AssocRefines` and `Comparators.MergeUnion`.

## What the code does that one might not expect

Each of these is a lemma; the ones marked "iff" give the exact condition for the good case.

- A variable repeated in a pattern is compared nowhere: its last position wins
  (`Shortcuts.RepeatedVariable`, iff).
- Cutting a context down to some variables forgets relations that have none of them, even empty
  ones, so an unsatisfiable branch can become satisfiable (`Contexts.LimitExact`, iff;
  `Collecting.CollectExact`, iff, for the rows of the answer). At the leaf of a rule this yields
  answers that cannot be derived (`Shortcuts.EmptyLeafSkipped`). It does not happen when the
  atoms of each rule body hang together by shared variables (`RuleConnected.ConnectedSound`).
- A predicate whose arguments are all bound is still refused if they are listed more often than
  there are bound variables, because a list is compared with a set by size first
  (`Shortcuts.BoundButRefused`, iff).
- A function clause overwrites an output variable that is already a column of the relations with
  its arguments. It means the same as the function for every function exactly if the output is
  no such column, or is a constant, or some relation of the context is empty
  (`Shortcuts.OutputExact`, iff).
- `false` given as a constant arrives at a predicate as nil (`Shortcuts.FalseConstant`, iff).
- The guards of a rule call compare it with every earlier call of the rule in the branch,
  siblings included, so non-linear rules lose answers (`Shortcuts.SiblingCallsLost`). An answer
  that has a derivation without a repeated call is found (`RuleCompleteness.RuleComplete`); the
  lost one has none (`Shortcuts.TwiceRepeats`).
- A rule that calls itself with its parameters turned round, as a symmetric closure does, raises
  in every database: its guard lists each variable twice, more often than there are variables
  (`RuleOutcome.NearFails`). A run raises exactly if a clause of the frame on top does
  (`RuleOutcome.RunFails`, iff), and never if calls of a rule within itself pass each parameter
  unchanged or a new variable, the arguments of predicates are in patterns before, and constants
  go where patterns allow them (`RuleOutcome.NeverRaises`).
- Two rules that call each other can keep the solver running for ever on cyclic data, although
  each argument that varies is bound before its call: a frame can check a guard only against
  variables of its own clauses and of those solved just before, and guards against a call of
  the same rule further up are put off again and again (`Alternation.NeverEnds`). The solver
  ends if each branch calls its own rule, with varying arguments bound, or a rule of lower rank
  (`RuleStatic.BoundRulesTerminate`); no ranking makes the two rules such a program
  (`Alternation.NoRank`).
- A recursion limit is looked up under the key results are stored at, so a renamed attribute
  has none. It bounds the nesting in every database exactly if a limit that is not higher is
  found under that key (`PullLimits.LimitHonoured`, iff; `PullLimits.RenamedLimitIgnored` is an
  example with limit 1). The recursion of an attribute that is pulled by wildcard yields ids
  only.
- Dates and transactions are interchangeable in as-of queries exactly if instants never
  decrease (`Snapshots.DatesAreTxs`, iff).
- A removal date earlier than one used before makes a collection look up a swept commit, after a
  run of a commit and a collection (`Versions.EarlierDate`), and so does a merge with a parent that is not stored
  (`Versions.MissingParent`).
- The query cache is called least recently used, but a hit does not touch it
  (`Lru.QueryCache.Parse`). The cache that counts datoms drops at most one entry on a miss,
  although its eviction is written as a loop (`DatomCache.ShrinkOnce`,
  `DatomCache.MissWithinLimit`, iff).
- The JVM and JavaScript orders of UUIDs differ when the high halves are equal and the low
  halves have different sign bits (`Uuid.ComparisonsAgree`, iff).

## Model

| member | source | states |
|---|---|---|
| Relations.JoinTuples | src/datahike/query.cljc:167-178 | the array loops write the chosen columns of the first tuple, then those of the second |
| Relations.HashAttrs | src/datahike/query.cljc:531-539 | each key maps to exactly the tuples with that key, last one first; absent keys have none |
| Relations.JoinBucket | src/datahike/query.cljc:541-581 | merging an outer tuple with its bucket yields one joined tuple per entry, columns of the first relation first whichever side is hashed |
| Relations.Probe | src/datahike/query.cljc:541-581 | probing the hash with every outer tuple is the nested loop over both sides |
| Relations.HashJoin | src/datahike/query.cljc:541-581 | the hash join returns the nested-loop join, hashing the smaller side |
| Relations.KeyAgree | src/datahike/query.cljc:523-529 | two tuples have the same hash key exactly if they agree on every common variable |
| Relations.JoinedAt | src/datahike/query.cljc:167-178 | in a merged tuple each variable is found at its new column, with the value from the side that owns it |
| Relations.JoinValid | src/datahike/query.cljc:541-581 | the join's columns are those of both sides, each once |
| Relations.JoinMult | src/datahike/query.cljc:541-581 | each assignment occurs in the join as often as in the left times in the right side, for both choices of the hashed side and without common variables |
| Relations.JoinHolds | src/datahike/query.cljc:541-581 | an assignment is in the join exactly if it is in both sides |
| RelationOps.SumRel | src/datahike/query.cljc:180-210 | a sum is refused exactly if the sides have different variables; otherwise it has the variables of both, and its re-layout fallback ends |
| RelationOps.RelayTuple | src/datahike/query.cljc:186-205 | the array loop moves each variable of a tuple to its column in the target layout |
| RelationOps.SumMult | src/datahike/query.cljc:180-210 | the sum has each assignment as often as both sides together, under any two column layouts |
| RelationOps.SumHolds | src/datahike/query.cljc:180-210 | an assignment is in the sum exactly if it is in one of the sides |
| RelationOps.ProdValid | src/datahike/query.cljc:215-232 | the product has the variables of both sides |
| RelationOps.ProdMult | src/datahike/query.cljc:215-232 | multiplicities multiply, and on shared variables the second relation decides |
| RelationOps.ProdHolds | src/datahike/query.cljc:215-232 | an assignment is in the product exactly if it is in the second side, and in the first on the variables of its own |
| Loops.ProdRowTuples | src/datahike/query.cljc:215-232 | the inner reduction of the product pairs one tuple with every tuple of the other side |
| Loops.ProdTuples | src/datahike/query.cljc:215-232 | the outer reduction yields the tuples of the product |
| RelationOps.SubtractHolds | src/datahike/query.cljc:583-593 | the difference keeps exactly the assignments that no tuple of the other relation matches on the common variables |
| Contexts.CollapseWellFormed | src/datahike/query.cljc:682-690 | collapsing keeps the relations' variable sets pairwise disjoint and loses no variable |
| Contexts.CollapseHolds | src/datahike/query.cljc:682-690 | collapsing preserves the join of all relations plus the new one |
| Contexts.JoinAllHolds | src/datahike/query.cljc:1688 | reducing the relations by hash join denotes their common assignments |
| Contexts.HavingSplit | src/datahike/query.cljc:702-708 | splitting off the relations with some of the arguments keeps both parts well-formed, disjoint and together equal in meaning |
| Contexts.ProdAllHolds | src/datahike/query.cljc:705-708 | the product of disjoint relations denotes their common assignments |
| Contexts.LimitWellFormed | src/datahike/query.cljc:1057-1064 | cutting a context down keeps it well-formed, with exactly the chosen variables it had |
| Contexts.LimitSound | src/datahike/query.cljc:1057-1064 | cutting down loses no assignment |
| Contexts.LimitComplete | src/datahike/query.cljc:1057-1064 | if no dropped relation is empty, what is left extends to an assignment of the whole context |
| Contexts.LimitExact | src/datahike/query.cljc:1057-1064 | cutting down is the projection if and only if it drops no empty relation or keeps an empty one |
| Search.Kept | src/datahike/query.cljc:1503-1525 | the filter keeps exactly the datoms that pass every check |
| Search.ProbedSound | src/datahike/query.cljc:1472-1501 | whatever the substitutions, a found datom is a datom with the pattern's constants that are looked up |
| Search.ProbedComplete | src/datahike/query.cljc:1472-1501 | a datom that some tuple of each used relation selects is found by the substitutions made from these tuples |
| Search.BatchSearchExact | src/datahike/query.cljc:1571-1629 | for every strategy that substitutes or filters each constant, the search finds only datoms with the pattern's constants and every such datom that can join with the context |
| Search.FoundExactly | src/datahike/query.cljc:1472-1629 | it finds no more than the strategy lets through: exactly the datoms with the constants that each used relation selects by one of its tuples, a substituted nil aside, which leaves its place open |
| Shortcuts.ScanOk | src/datahike/query.cljc:1527-1545 | a plain scan with equality tests meets what the search asks of an index lookup |
| StrategyTable.RowMatches | src/datahike/db/search.cljc:133-152 | each of the 18 rows matches exactly the search patterns it is meant for |
| StrategyTable.TableCompiles | src/datahike/db/search.cljc:133-152 | the table is complete and free of overlaps, and its decision tree yields for every pattern the index and the strategies of the search |
| StrategyTable.LookupIsRange | src/datahike/db/search.cljc:88-152 | what is substituted leads the order of the index that is picked, so that a lookup is one slice of it; other bound elements are filtered and unbound ones skipped |
| DecisionTrees.CompileHits | src/datahike/tools.cljc:24-41 | if a table compiles, exactly one row matches each input and the tree returns that row |
| DecisionTrees.RejectedInput | src/datahike/tools.cljc:24-41 | if compilation raises, some input matches no row or several; the lemma yields it |
| DecisionTrees.CompilesExactly | src/datahike/tools.cljc:24-54 | a table compiles if and only if every input matches exactly one row |
| DecisionTrees.RangeTreeExact | src/datahike/tools.cljc:241-277 | every growing index list reaches the leaf of that very list, with a mask that inverts it |
| Clauses.ResolvePattern | src/datahike/query.cljc:1631-1664 | a pattern clause raises or adds exactly its variables, relations staying disjoint |
| Clauses.ResolvePred | src/datahike/query.cljc:768-783 | a predicate clause raises or keeps the variables, relations staying disjoint, and never waits |
| Clauses.ResolveBind | src/datahike/query.cljc:785-834 | a function clause waits or adds its output variable, relations staying disjoint |
| Clauses.DistinctOnce | src/datahike/query.cljc:90-96 | duplicate tuples are removed and each other tuple stays once |
| Resolving.ClauseResolves | src/datahike/query.cljc:1666-1764 | a clause of any form resolves if and only if a condition on its text, the bound variables and the constants holds, and what is in scope afterwards; otherwise it raises or waits |
| Resolving.ClausesResolve | src/datahike/tools.cljc:219-229 | a list of clauses resolves if and only if every one has its turn in the schedule and resolves in it |
| Resolving.FoldSucceeds | src/datahike/tools.cljc:207-229 | the scheduler succeeds if and only if the clauses are schedulable and resolve one after the other in that order |
| Resolving.RaisesAlike | src/datahike/query.cljc:1666-1764 | whether a clause raises does not depend on the data |
| Resolving.NotNeedsOne | src/datahike/query.cljc:1729-1742 | a negation of patterns and functions that have a schedule resolves if one of its variables is bound, new variables or not, and raises if and only if none is |
| Resolving.NotJoinNeedsAll | src/datahike/query.cljc:1744-1758 | such a `not-join` with a variable in a relation resolves if all its variables are bound and raises if and only if one is not |
| Resolving.OrNeedsSame | src/datahike/query.cljc:1683-1692 | an `or` of branches that resolve resolves if and only if all leave the same variables, and never waits |
| Resolving.RequiredBound | src/datahike/query.cljc:1694-1698 | a required variable of `or-join` that is not bound raises |
| Loops.CallArgs | src/datahike/query.cljc:710-731 | the array loops give each argument its literal, its constant or its column, in that order of writing |
| Semantics.PatternExact | src/datahike/query.cljc:1631-1664 | the strategy-driven search joined with the context denotes the context's assignments under which a full scan finds a matching datom |
| Semantics.PredExact | src/datahike/query.cljc:768-783 | filtering the product of the argument relations keeps exactly the assignments that satisfy the predicate |
| Semantics.BindRelHolds | src/datahike/query.cljc:785-834 | the relation of a function clause has exactly the assignments some input tuple and the function's value give |
| Loops.ReduceLoop | src/datahike/tools.cljc:207-217 | one pass over the clauses applies those that do not wait and returns the others in order |
| Loops.ResolveLoop | src/datahike/tools.cljc:219-229 | passes are repeated until nothing waits, or raise when none makes progress; the loop ends |
| Schedule.ReduceIsFold | src/datahike/tools.cljc:207-217 | a pass applies exactly the clauses that the bound variables enable, one after the other |
| Schedule.OrderIsPermutation | src/datahike/tools.cljc:219-229 | a complete schedule applies each clause exactly once |
| Schedule.ResolveIsFold | src/datahike/tools.cljc:219-229 | a successful run is a sequential run over a permutation that depends only on the variables bound at the start |
| Flat.ScheduleComplete | src/datahike/tools.cljc:219-229 | if the clauses can be applied in some order, the scheduler applies them all |
| Flat.SchedulePermutes | src/datahike/tools.cljc:219-229 | whether the scheduler gets through does not depend on the order of the clauses |
| Flat.ReorderSucceeds | src/datahike/tools.cljc:219-229 | any order of pattern and function clauses resolves exactly if another does |
| Flat.FlatExact | src/datahike/query.cljc:1666-1764 | patterns, predicates and functions in sequence denote the assignments that make all of them true |
| Flat.ResolveFlat | src/datahike/query.cljc:1084-1085 | the scheduler over patterns, predicates and functions denotes the assignments that make all of them true |
| Flat.ReorderExact | src/datahike/tools.cljc:219-229 | two orders of the same patterns, predicates and functions that resolve denote the same assignments; without predicates, one resolves if the other does |
| Evaluator.AndExact | src/datahike/query.cljc:1717-1727 | conjunction: exactly the assignments that satisfy every conjunct |
| Evaluator.OrExact | src/datahike/query.cljc:1683-1692 | disjunction: exactly the assignments that satisfy some branch, by a sum of joined branches |
| Evaluator.OrJoinExact | src/datahike/query.cljc:1694-1715 | or-join: exactly those that agree on the join variables with one satisfying a branch |
| Evaluator.NotHolds | src/datahike/query.cljc:1729-1742 | negation, where it resolves (`NotNeedsOne`, `ClauseResolves`): exactly the starting assignments that extend to none satisfying the negated clauses |
| Evaluator.NotJoinHolds | src/datahike/query.cljc:1744-1758 | not-join, where it resolves (`NotJoinNeedsAll`, `ClauseResolves`): the same with the start and the negated part cut down to the join variables |
| Evaluator.ClauseExact | src/datahike/query.cljc:1666-1764 | the context that a clause tree resolves to, if it does, denotes exactly the assignments that extend the starting context and satisfy the tree |
| Resolving.ClauseTotal | src/datahike/query.cljc:1666-1764 | a clause tree that meets the condition of `ClauseResolves` resolves, and the result denotes exactly the assignments that extend the starting context and satisfy the tree |
| Shortcuts.RepeatedVariable | src/datahike/query.cljc:595-598 | a pattern is faithful in every database if and only if it repeats no variable |
| Shortcuts.OutputExact | src/datahike/query.cljc:785-834 | a function clause that resolves is faithful to every function if and only if its output is no column of its arguments' relations, or is a constant, or some relation is empty |
| Shortcuts.OutputOverwritten | src/datahike/query.cljc:785-834 | otherwise, for a function whose value the output's column does not hold, an assignment comes out that the context does not have |
| Shortcuts.BoundButRefused | src/datahike/query.cljc:1066-1074 | with all arguments bound, the check raises if and only if they are listed more often than there are bound variables |
| Shortcuts.SelfComparisonRefused | src/datahike/query.cljc:1066-1074 | comparing the only bound variable with itself is refused |
| Shortcuts.FalseConstant | src/datahike/query.cljc:710-731 | a predicate clause on a constant keeps the context exactly when the predicate is true of it, for every predicate, if and only if the constant is not false |
| Loops.CopyRow | src/datahike/query.cljc:1801-1808 | the inner loop copies a row and overwrites the columns the tuple has |
| Collecting.CollectRowsIs | src/datahike/query.cljc:1787-1811 | the rows built breadth first are those reached by choosing one tuple per relation |
| Collecting.CollectAll | src/datahike/query.cljc:1787-1811 | every assignment of the context is read off |
| Collecting.CollectOnly | src/datahike/query.cljc:1787-1811 | each row comes from an assignment of the context, unless an empty relation was skipped |
| Collecting.CollectExact | src/datahike/query.cljc:1787-1811 | the rows are those of the context's assignments if and only if no empty relation is skipped or an empty one is visited |
| RuleSemantics.DerivableClosed | src/datahike/query.cljc:854-874 | the reference meaning is closed under the rules |
| RuleSemantics.SolveExact | src/datahike/query.cljc:907-921 | solving a prefix keeps exactly the assignments that make its patterns, predicates and guards true |
| RuleFrames.RenInjective | src/datahike/query.cljc:854-874 | renaming a body never confuses two variables, expansion numbers being new |
| RuleFrames.GuardTrue | src/datahike/query.cljc:876-887 | a guard is true exactly if the two calls pass different values; equal arguments may be left out |
| RuleFrames.FrameGuards | src/datahike/query.cljc:897-901 | guards checked now and guards put off say together that the call differs from every earlier one |
| RuleFrames.PulledBody | src/datahike/query.cljc:854-874 | a renamed body is true exactly if the original is true of the pulled-back values |
| RuleFrames.PushedBody | src/datahike/query.cljc:854-874 | a true rule body is true after renaming, under the values pushed forward |
| RuleFrames.ChildOk | src/datahike/query.cljc:960-973 | every frame pushed keeps well-formed, safe and with variables older than the next expansion |
| RuleSoundness.StepSound | src/datahike/query.cljc:925-975 | each turn keeps: all answers, and all answers of frames on the stack, are derivable |
| RuleSoundness.RuleSound | src/datahike/query.cljc:903-978 | at any point of a run whose leaves skip no empty relation, every answer found is in the least fixed point, recursive and non-linear rules included |
| RuleTrees.UnrepeatedDerivable | src/datahike/query.cljc:854-874 | a call with a derivation tree is in the least fixed point |
| RuleTrees.LinearUnrepeated | src/datahike/query.cljc:882-901 | in a linear program everything derivable has a derivation that makes no call twice |
| RuleCompleteness.NotDropped | src/datahike/query.cljc:944-957 | a frame on its way through a derivation without repetitions is never dropped by its guards or by an empty relation |
| RuleCompleteness.ExpandTracked | src/datahike/query.cljc:960-973 | expanding such a frame leaves a child on the way |
| RuleCompleteness.RuleComplete | src/datahike/query.cljc:903-978 | for all rules, when the stack is empty every tuple that agrees with the context and has a derivation without a repeated call has been found |
| RuleCompleteness.RuleExact | src/datahike/query.cljc:903-978 | for rules that need no repeated call, linear ones among them, the finished relation, collapsed into the context, keeps exactly the assignments for which the call is derivable |
| Shortcuts.SiblingCallsLost | src/datahike/query.cljc:962-963 | a rule that calls another twice with the same argument finds nothing although every entity is derivable |
| Shortcuts.TwiceRepeats | src/datahike/query.cljc:882-887 | every derivation of that rule makes a call twice |
| Shortcuts.EmptyLeafSkipped | src/datahike/query.cljc:933-942 | a rule with a pattern that has no match still yields every entity, because the empty relation of that pattern has no variable of the call and is skipped at the leaf |
| Shortcuts.LooseOk | src/datahike/query.cljc:933-942 | that rule is positive, safe and linear |
| RuleTermination.DepthBound | src/datahike/query.cljc:882-901 | pairwise different calls on a stack are at most as many as there are argument tuples over the domain |
| RuleTermination.LiveDepth | src/datahike/query.cljc:925-975 | a frame whose relations are not empty has made no more calls than that |
| RuleTermination.StepTurns | src/datahike/query.cljc:925-975 | each turn lowers a measure of the stack, provided the frame on top puts off only guards that pass a constant |
| RuleTermination.RuleTerminates | src/datahike/query.cljc:903-978 | the general form: along a run that puts off only guards passing a constant, the solver ends after a number of turns that is computed from the rules and the finite domain |
| RuleStatic.StaticChecked | src/datahike/query.cljc:897-901 | a frame that keeps the static invariant puts off only guards that pass a constant |
| RuleStatic.ChildStatic | src/datahike/query.cljc:960-973 | children of such a frame keep the invariant, guard variables being carried in the prefix |
| RuleStatic.BoundRulesTerminate | src/datahike/query.cljc:903-978 | if each branch calls its own rule, with varying arguments bound by the clauses before, or a rule of lower rank, the solver ends on all data, whatever the call passes |
| RuleStatic.BoundRulesSolved | src/datahike/query.cljc:903-978 | the solver of such rules ends, and unless a clause raised (`RunFails`) or a leaf skipped an empty relation, the context it returns keeps exactly the assignments for which the call is derivable |
| RuleStatic.FollowOk | src/datahike/query.cljc:882-901 | transitive closure meets the conditions of soundness, completeness and termination |
| RuleConnected.LeafConnected | src/datahike/query.cljc:933-942 | a leaf all of whose atoms hang together with the call skips no empty relation |
| RuleConnected.ChildConnected | src/datahike/query.cljc:960-973 | expanding a call by connected branches keeps a frame's atoms and relations hanging together with the call |
| RuleConnected.ConnectedSound | src/datahike/query.cljc:903-978 | for rules with connected bodies, at any point of any run every answer found is in the least fixed point |
| RuleConnected.FollowConnected | src/datahike/query.cljc:854-874 | transitive closure is connected |
| RuleOutcome.StepFails | src/datahike/query.cljc:925-975 | a turn fails if and only if a clause of the frame on top raises: one of a leaf, or one before a call of a frame that repeats none; frames without data never fail |
| RuleOutcome.RunFails | src/datahike/query.cljc:903-978 | a run fails if and only if in one of its turns such a clause raises |
| RuleOutcome.ConnectedOutcome | src/datahike/query.cljc:903-978 | the solver of connected rules that end fails if a clause raises, and otherwise returns a context that keeps exactly the assignments for which the call is derivable |
| RuleOutcome.NeverRaises | src/datahike/query.cljc:903-978 | no run of rules whose patterns are valid, whose predicates have their arguments in patterns before, and whose own calls pass each parameter unchanged or a new variable ever fails |
| RuleOutcome.RulesSolved | src/datahike/query.cljc:903-978 | total correctness from the text of the rules alone: on all data the solver ends, without error, and the context it returns keeps exactly the assignments for which the call is derivable |
| RuleOutcome.FollowSolved | src/datahike/query.cljc:854-978 | transitive closure on all data, cyclic data included, ends without error and keeps exactly the derivable pairs |
| RuleOutcome.NearFails | src/datahike/query.cljc:882-901 | a symmetric closure that calls itself with its parameters turned round raises in every database, in its third turn |
| Alternation.NeverEnds | src/datahike/query.cljc:897-978 | two rules that call each other never end on a ring of three entities |
| Alternation.TurningOk | src/datahike/query.cljc:882-901 | the two rules are safe and linear, and bind each varying argument before their calls |
| Alternation.NoRank | src/datahike/query.cljc:882-901 | no ranking makes them rules that the solver is shown to end on |
| PullEval.EidsRun | src/datahike/pull_api.cljc:274-292 | a pattern frame anywhere on the stack turns into its finished frame with the recursively evaluated results |
| PullEval.AttrRun | src/datahike/pull_api.cljc:126-181 | one attribute: limit, component, recursion, sub-pattern, reference or value, default and renaming, as the recursive evaluation has them |
| PullEval.RecRun | src/datahike/pull_api.cljc:81-110 | a recursion frame hands over what evaluating each entity that was not seen gives, and the id of those seen |
| PullEval.ExpandRun | src/datahike/pull_api.cljc:230-251 | wildcard expansion merges all attributes, then the reverse ones, into the frame below |
| PullEval.UnseenShrinks | src/datahike/pull_api.cljc:47-59 | a recursion step into an entity that was not seen leaves fewer unseen entities |
| PullProps.Machine.constructor | src/datahike/pull_api.cljc:17-28 | the machine starts on a run that ends with the recursive evaluation of its pattern |
| PullProps.Machine.Turn | src/datahike/pull_api.cljc:294-309 | a turn stays on that run and brings its end nearer |
| PullProps.Machine.Finish | src/datahike/pull_api.cljc:294-309 | the loop ends and returns the recursive evaluation of the pattern the machine started with |
| PullProps.PullExact | src/datahike/pull_api.cljc:274-309 | for every database, pattern and entity list, cyclic ones included, the machine reaches the result of the recursive evaluation; `PullReads` says what that reads |
| PullProps.PullSpec | src/datahike/pull_api.cljc:311-325 | pulling one or many entities returns what the recursive evaluation has, or nothing when there is no result |
| PullLimits.RecursionBounded | src/datahike/pull_api.cljc:81-110 | with a recursion limit of n the attribute is never nested deeper than n, in patterns with wildcards, renaming, sub-patterns and component expansion |
| PullLimits.LimitHonoured | src/datahike/pull_api.cljc:81-95 | a limit of n bounds the nesting of results to n in every database if and only if a limit of at most n is found under the key of the results |
| PullLimits.RenamedLimitIgnored | src/datahike/pull_api.cljc:81-110 | a renamed attribute with limit 1 nests twice on an entity that refers to itself |
| PullReads.ReadAll | src/datahike/pull_api.cljc:196-204 | a forward or reverse lookup lists the value, or the entity, of each matching fact of the database once, in order |
| PullReads.HasFactsIff | src/datahike/pull_api.cljc:187-190 | an entity has facts if and only if one of the facts of the database is about it |
| PullReads.TakenFirst | src/datahike/pull_api.cljc:134-139 | a limit takes the first of the values, at most as many as it says, at most 1000 by default |
| PullReads.GroupsOnce | src/datahike/pull_api.cljc:230-251 | a wildcard visits each attribute of the entity once, with all its values |
| PullReads.LookupFirst | src/datahike/pull_api.cljc:230-238 | the options used are those of the first spec under the key |
| PullReads.PlainPull | src/datahike/pull_api.cljc:126-181 | under the key of an attribute that is pulled no further there is the one value or the list of the values of the facts, by cardinality and direction, up to the limit; without facts the default, and else nothing |
| PullReads.IdPull | src/datahike/pull_api.cljc:183-190 | the id is pulled if and only if the entity has facts |
| PullReads.SubPull | src/datahike/pull_api.cljc:144-152 | under the key of an attribute with a sub-pattern there are the sub-pattern's results for the values of the facts up to the limit: all, or the first, by cardinality and direction |
| PullReads.WildPull | src/datahike/pull_api.cljc:230-272 | a wildcard yields the id and, for each attribute with facts that is not expanded, its value or values up to the default limit |
| TimeTravel.GroupByStep | src/datahike/tools.cljc:231-239 | the reduction groups datoms by entity and attribute, each group complete and in order of arrival |
| TimeTravel.AssembleView | src/datahike/db.cljc:153-170 | the assembled view is the union of the views of the groups |
| TimeTravel.SortSorts | src/datahike/db.cljc:153-170 | a group is put in order of transactions without losing or adding datoms |
| TimeTravel.ReplayExact | src/datahike/db.cljc:158-165 | replaying a group keeps for each value the datom of its last transaction, if it was added |
| TimeTravel.ManyExact | src/datahike/db.cljc:153-170 | a many-valued group yields each value whose last datom is an addition |
| TimeTravel.OneExact | src/datahike/db.cljc:166-170 | a single-valued group yields the addition of its last transaction, if there is one |
| TimeTravel.ViewExact | src/datahike/db.cljc:153-195 | the view, in whatever order datoms come, has exactly those that no later datom overrides |
| Snapshots.RunKeeps | src/datahike/db.cljc:153-170 | over every run of transactions the history has no clash, and the current datoms are those nothing in the history overrides |
| Snapshots.FilterExact | src/datahike/db/utils.cljc:245-257 | a datom passes the time filter exactly if the instant datom of its own transaction does |
| Snapshots.AsOfIsSnapshot | src/datahike/db.cljc:141-195 | the as-of view of any search at any past transaction is that search on the snapshot current right after it, for both cardinalities |
| Snapshots.SinceIsRecent | src/datahike/db.cljc:148-195 | the since view of any search has exactly the current datoms of that search that are newer than the transaction |
| Snapshots.AsOfSincePartition | src/datahike/db.cljc:141-151 | at every date or transaction, each datom of the history is in exactly one of the two |
| Snapshots.DatesAreTxs | src/datahike/db.cljc:137-151 | each date stands for a transaction if and only if instants never decrease |
| Snapshots.AsOfDateIsSnapshot | src/datahike/db.cljc:141-195 | for such a date the as-of view is the snapshot of that transaction |
| Snapshots.SinceDateIsRecent | src/datahike/db.cljc:148-195 | and the since view of any search has its current datoms of later transactions |
| Gc.ReachableInBranch | src/datahike/gc.cljc:16-46 | the worklist ends on any commit graph and marks exactly the keys of what is reached, or meets a commit that is not stored |
| Gc.ReachedLeast | src/datahike/gc.cljc:21-46 | what is reached is the least set with the branch head that is closed under parents of in-range commits |
| Gc.OutOfRangeIsParent | src/datahike/gc.cljc:33-35 | a commit out of range is reached only as the direct parent of one in range, or as the head |
| Gc.MarkDone | src/datahike/gc.cljc:21-46 | with an empty worklist, what was visited is that least set and all of it is stored |
| Gc.CommitKeeps | src/datahike/writing.cljc:121-194 | a commit keeps every stored record whole and every recent one with its parents |
| Gc.BranchKeeps | src/datahike/experimental/versioning.cljc:55-69 | so does branching off a live branch or commit |
| Gc.DeleteKeeps | src/datahike/experimental/versioning.cljc:71-84 | so does deleting a branch |
| Gc.LookupsSucceed | src/datahike/gc.cljc:25-35 | with removal dates that do not go back, every commit a collection looks up is stored |
| Gc.CollectKeeps | src/datahike/gc.cljc:48-69 | a collection keeps the store sound |
| Gc.NeededStays | src/datahike/gc.cljc:48-69 | every reached record stays, with its index nodes, its schema and its commit |
| Gc.KeptExactly | src/datahike/gc.cljc:36-69 | a key stays if and only if it is the list of branches, a reached record, an index node or the schema of one, the commit of a listed head, or was written since the collection began; its value is unchanged |
| Gc.UnneededGo | src/datahike/gc.cljc:48-69 | in a sound store all that no listed branch needs goes: records, index nodes and schemas |
| Gc.DeleteIs | src/datahike/experimental/versioning.cljc:71-84 | exactly the given name leaves the list of branches and nothing else changes; the main branch and unknown names are refused |
| Gc.BranchIs | src/datahike/experimental/versioning.cljc:55-69 | exactly the new name is added, with the record of its origin; known names and origins without a record are refused |
| Gc.HeadsAre | src/datahike/writing.cljc:121-134 | each parent named by a branch is recorded as the commit at the head of that branch, and one that is not stored refuses the commit |
| Gc.CommitIs | src/datahike/writing.cljc:154-194 | one record with these parents is stored under the new id and the branch, with the new index nodes and a schema not written before; every other key keeps its value |
| Versions.Store.constructor | src/datahike/writing.cljc:229-281 | a new store holds the first commit of the main branch and is sound |
| Versions.Store.CommitDb | src/datahike/writing.cljc:154-194 | a commit writes its record under its id and its branch, with its new index nodes and its schema, or changes nothing |
| Versions.Store.Merge | src/datahike/experimental/versioning.cljc:156-172 | a merge is a commit with further parents and is refused without any |
| Versions.Store.AddBranch | src/datahike/experimental/versioning.cljc:55-69 | a new branch has the record of its origin; an existing name or an unknown origin changes nothing |
| Versions.Store.RemoveBranch | src/datahike/experimental/versioning.cljc:71-84 | the method does what `Gc.DeleteIs` states: only the given name goes; the main branch and unknown branches are refused |
| Versions.Store.Whitelist | src/datahike/gc.cljc:58-67 | the whitelist has exactly the marks of all branches |
| Versions.Store.Collect | src/datahike/gc.cljc:48-69 | a collection clears the write cache and deletes exactly the keys neither whitelisted nor newly written |
| Versions.RunSound | src/datahike/gc.cljc:48-69 | over every run of commits, merges, branches, deletions and collections the store stays sound |
| Versions.RunLookups | src/datahike/gc.cljc:25-35 | so no collection after any run looks up a swept commit, and all it reaches is whole |
| Versions.MissingParent | src/datahike/experimental/versioning.cljc:156-172 | a merge with a parent that is not stored makes the next collection look it up in vain |
| Versions.EarlierDate | src/datahike/gc.cljc:31-35 | after a database is created, committed to and collected, a collection with an earlier removal date looks up the commit that was swept |
| Lru.AssocValid | src/datahike/lru.cljc:29-63 | generations and keys stay inverse, the key sets agree, and the size stays within the limit |
| Lru.AssocRefines | src/datahike/lru.cljc:29-63 | assoc is move-to-front with drop-last on the list of keys in order of use |
| Lru.AssocValues | src/datahike/lru.cljc:29-48 | a present key keeps its old value, a new key gets the new one, and only a dropped key loses its value |
| Lru.QueryCache.Parse | src/datahike/query.cljc:1887-1894 | the memoized parse always equals the parse; a hit leaves the cache as it is |
| DatomCache.HitKeeps | src/datahike/lru.cljc:76-85 | a hit keeps the total equal to the sum of the counts |
| DatomCache.EvictKeeps | src/datahike/lru.cljc:112-120 | so does an eviction |
| DatomCache.ShrinkOnce | src/datahike/lru.cljc:96-105 | the eviction loop removes the front of the old queue once, or nothing |
| DatomCache.MissKeeps | src/datahike/lru.cljc:86-111 | a miss keeps the total equal to the sum of the counts |
| DatomCache.RunCounted | src/datahike/lru.cljc:68-132 | so does every run of hits, misses and evictions from an empty base |
| DatomCache.HitQueue | src/datahike/lru.cljc:76-85 | on the queue of items in order of use, a hit moves a present item to the end, keeps the order of the others, and changes nothing for an absent one |
| DatomCache.EvictQueue | src/datahike/lru.cljc:112-120 | an eviction takes the item out of the queue and keeps the order of the others |
| DatomCache.MissQueue | src/datahike/lru.cljc:86-111 | a miss puts the item at the end and drops the front of the queue exactly if the new total is over the limit and the front is another item |
| DatomCache.MissWithinLimit | src/datahike/lru.cljc:86-111 | a miss ends within the datom limit if and only if dropping at most the oldest other entry is enough |
| Comparators.LexTotal | src/datahike/datom.cljc:170-182 | combining total comparisons by first difference is total |
| Comparators.IndicesTotal | src/datahike/datom.cljc:315-379 | the current, temporal and prefix comparator of every index is total, part by part and combined |
| Comparators.IndexOrder | src/datahike/datom.cljc:315-379 | the order of each index: entity, attribute, value in EAVT, attribute, entity, value in AEVT, attribute, value, entity in AVET, the smaller first; then the smaller transaction, then retractions before additions |
| Comparators.SliceIsRange | src/datahike/datom.cljc:315-379 | in each index, between two datoms that agree on the first component, or on the first two, there are only datoms that agree with them |
| Comparators.IndicesAgree | src/datahike/datom.cljc:315-379 | the comparators of different indices agree on which datoms are equal |
| Comparators.IndicesRefine | src/datahike/datom.cljc:315-379 | the temporal comparators refine the current ones, and these the prefix ones |
| Comparators.Contiguous | src/datahike/datom.cljc:315-379 | between two datoms with the same e, a and v in an index there are only such datoms |
| Comparators.DistinctSorted | src/datahike/tools.cljc:279-289 | the loop says true exactly for strictly sorted sequences |
| Comparators.DiffSorted | src/datahike/datom.cljc:380-396 | the exact three-way partition of two strictly sorted sequences, in order |
| Comparators.MergeStrict | src/datahike/tools.cljc:291-310 | the merge of strictly sorted sequences is strictly sorted |
| Comparators.MergeUnion | src/datahike/tools.cljc:291-310 | the merge has all of the first sequence and what of the second has no match in it |
| Uuid.CanonicalCompare | src/datahike/datom.cljc:261-282 | comparing canonical strings is comparing the digits |
| Uuid.ComparisonsAgree | src/datahike/datom.cljc:261-282 | string order and the order of two signed halves agree if and only if the high halves differ or the low halves have the same sign bit |
| Uuid.VariantAgrees | src/datahike/datom.cljc:261-282 | they agree on all UUIDs of the variant of section 4.1.1 of RFC 4122 |

## Left out

Contracts with a hypothesis the code does not check:

- Evaluator.ClauseExact: is about clauses that resolve, which `ClauseResolves` decides, and like `ClauseTotal` assumes `Regular`: no pattern of the tree repeats a variable, no function output is already a column of its arguments' relations, and no cut-down context drops an empty relation; `RepeatedVariable`, `OutputExact` and `LimitExact` say exactly when each of these matters. It also assumes constants that are neither nil nor false (`FalseConstant`).
- Shortcuts.OutputExact: assumes what resolving keeps of every context: constants are neither nil nor false, and columns of a constant's name hold that constant.
- Flat.ReorderExact: takes two orders that both resolve when there are predicates, since a predicate whose arguments are not bound raises instead of waiting; without predicates one is enough.
- RuleSoundness.RuleSound: assumes that leaves skip no empty relation when their rows are read off (`CollectExact`; `EmptyLeafSkipped` shows it fails otherwise), which `ConnectedSound` derives from the text of connected rules; and that calls pass distinct variables or, in the outermost call, constants.
- RuleCompleteness.RuleComplete: says nothing of answers whose derivations all repeat a call; some of these are lost (`SiblingCallsLost`), others found, because a guard that is still put off at a leaf is never checked.
- RuleStatic.BoundRulesSolved: says nothing about the result when a clause raises, or when a leaf skips an empty relation; `RulesSolved` is without both conditions.
- RuleOutcome.RulesSolved: is about calls that pass at least one variable and constants that fit the patterns, and about rules that call themselves with each parameter unchanged or a new variable; for other connected rules `ConnectedOutcome` says that the result is exact unless a clause raises, as in `NearFails`.
- RuleTermination.RuleTerminates: assumes of the run that only guards passing a constant are put off; `BoundRulesTerminate` derives this from the text of the rules. Rules that call each other are not covered, and `NeverEnds` shows that they need not end.
- PullReads.PlainPull: asks for a key that no other spec of the pattern stores results under.
- Search.FoundExactly: leaves open what an index lookup does with a substituted nil.
- PullLimits.RecursionBounded: other specs and sub-patterns must not store results under the same key, and a component expansion must stay within entities that have no attribute of that name; `LimitHonoured` says when a limit applies at all.
- Comparators.DiffSorted: needs strictly sorted input, as index slices are.
- Snapshots.AsOfIsSnapshot: takes each transaction as its net effect on the current datoms, which transaction processing is to record; attributes without history are not covered.
- Versions.RunSound: time moves on between operations, commit ids are new, and explicit parents and shared index nodes are stored, all of which callers see to.

Parts of the repository the model does not have:

- Lookup refs, attribute refs, source-prefixed clauses, collections as sources, and resolution of symbols to functions or methods: they add cases; predicates and functions are uninterpreted pure functions.
- Bindings other than to one variable in function clauses, `get-else`, `get-some`, `missing?` and the other built-ins.
- Rules with negation, nested connectives or function clauses in their bodies; the order in which variables made up for an expansion are spelled, which are assumed not to occur in queries.
- Statistics, timing, find specs, aggregates, return maps, offset and limit of query results.
- The index trees: an index lookup is a parameter that returns a list of exactly the datoms with the looked-up components; sets of tuples are sequences, compared as bags where it matters.
- Parsers of queries, rules and pull patterns; the model starts from parsed forms.
- In pull: resolving entity identifiers and the system attributes; expansion visits attributes in the order in which they first occur.
- Transaction processing, schema and its checks, and the history and filtered views beyond as-of and since.
- `force-branch!`, `branch-history`, and operations that run at the same time as a collection; `sweep!` deletes the keys that are not whitelisted and not written since the collection began, and marking an index yields its node keys.
- Connections, writers, remote peers, bindings to other languages, configuration and all other input and output.
- Seeding `LRUDatomCache` with a base, which sets its total to 0 whatever the base holds: runs start from an empty base, from where ticks stay distinct and the priority map has no ties.
- Values other than integers, keywords, strings and booleans, and comparisons across value types: value order is a parameter.
- Hash codes of datoms and the memoised `_hash`.
