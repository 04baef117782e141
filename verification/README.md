# A verified model of the columnar query engine

This project models a single-threaded, vectorized query engine and proves what its optimizer,
its operators and its storage keep. It verifies with `dafny verify dfyconfig.toml`.

**Plans and their meaning.** A logical plan denotes a list of rows (`Plans.Rows`): a filter keeps
order, a join is a left-major nested loop, groups come in order of first appearance, a sort is
stable, a limit takes a prefix. Expressions are evaluated in three-valued logic (section 8.12 of
ISO/IEC 9075:1992) over 64-bit integers with checked arithmetic and doubles with NaN, infinities
and two zeros (comparisons of section 5.11 of IEEE 754-2008). Exceptions on ill-formed plans are
`None`.

**What the definitions mean.** Operators and list semantics share the cell order, the comparisons,
arithmetic and typing, so these are pinned down on their own. `CellLaws` ties them to the reals, the
integers and the bytes; `EqualityLaws` shows a join as the product of its inputs filtered by the
equality of its keys; `SortLaws` says what ascending, descending and nulls-first mean in the output;
`GroupLaws` tells the aggregates of a group by its rows; `StatisticsLaws` says which groups pruning
keeps. `TypeLaws` gives the places where a plan is refused, one by one, and `StarQuery` is a query of
the workloads that uses every kind of plan and is accepted.

**The optimizer.** `Rewrite.Rewrite` and `Prune.Prune` are the two passes as functions on plans,
for an arbitrary selectivity estimate. `RewriteProof` and `PruneProof` show that they keep the
schema and the list of rows; `RewriteEffect` and `PruneEffect` show what they achieve. `InPlace`
is the same optimizer as the source has it: it copies a plan, whose nodes may be shared, to a
private tree and overwrites the nodes of that, proved against the functions.

**The operators.** Scan, filter, projection, limit, sort, hash join and hash aggregation are
classes with the source's cursors and buffers, and each but the scan holds the operators below it.
`Operators.Operator` is any of them. Each has a ghost list `Todo()` of the rows still to come, a
function of the lists of its children, and each `Next` delivers the next part of it, pulling from
its children as often as it takes: one contract for every tree, every batch size and every place a
run stopped at. `HashIndex`, `Chains`, `RowStore`, `JoinState` and `GroupState` carry the invariants
of the hash machinery; `Evaluator` is the postorder vector evaluator.

**Statistics.** `Statistics` and `Tables` gather and merge row-group statistics; `PruningProof`
shows that a scan pruned by them loses no row that the filters above it keep.

**Storage.** `Words`, `Bitmaps`, `Validity`, `Arenas` and `Columns` model validity bits in 64-bit
words and strings in an arena with 32-bit offsets, down to shifts and masks, and prove them
against the vectors the operators use.

**End to end.** `PhysicalPlans.Lower` chooses build sides and pruning predicates;
`Execution.Execute` puts the operators together as a tree, which `Operators.Operator.Collect` pulls
from its root; `Engine.Run` composes everything: for every well-formed plan, every content of its
sources, every estimate and every batch capacity, the batches show the rows of the original plan.
`LoweringProof.LowerSound` says exactly which list the operators produce, for any build sides. It
is the plan's own list when every join builds its right side. A join that builds its left side gives
its rows right-major: that is the same bag as long as no aggregation or limit stands above it. Above
one, the result may differ (`BuildSideWitness.BuildSideChangesRows` is a plan where it does, and
`GroupOutlines.SumDependsOnOrder` a sum), and `BuildSides.CertainRows` says what does not: the
columns computed by `BuildSides.Certain` show the same bag, up to the sign of a zero. They include
the grouping keys, COUNT, MIN and MAX, and integer SUM when no running total overflows in either
order; of a limit, the number of rows. A sum of doubles is not among them, as its rounding depends
on the order.

**Two places where the code needs care.** `Validity::append` counts NULLs right exactly when the
bit it claims was clear, which a reset to valid does not leave behind unless the row count is a
multiple of 64 (`Validity.AppendAfterReset` states this as an if-and-only-if); the column operations
that grow a column therefore ask for a bitmap that is clear past its end. The vector evaluator
throws on a dense batch without physical rows exactly when the expression contains `x < NULL` over integers,
because nothing keeps its constant kernel from reading the literal (`Evaluator.Evaluator.Evaluate`
states this as an if-and-only-if, `Nodes.EvaluationCanFail` gives the input). Operators only hand on
batches with an active row, on which it never fails.

## Model

| member | source | states |
|---|---|---|
| Values.CompareAntisymmetric | src/hash.cpp:30-45 | swapping the cells negates the three-way comparison, over NULL, NaN, both zeros and strings |
| Values.CompareTransitive | src/hash.cpp:30-45 | the cell order (NULL last, NaN after other doubles) is transitive, and a strict step anywhere makes the whole strict |
| Values.CompareEqualIsCanon | src/hash.cpp:46-46 | two cells are equal keys exactly when they are in one class: NULLs together, NaNs together, both zeros together |
| Values.TruncatedDivideInRange | src/expression.cpp:88-91 | an integer quotient fits 64 bits exactly when it is not the least integer divided by -1, the pair the guard excludes |
| CellLaws.DoubleOrder | src/hash.cpp:38-42 | zeros and finite doubles are ordered as the reals they stand for, between the infinities, NaN after everything |
| CellLaws.TextOrder | src/hash.cpp:37-37 | a string is less exactly when it is a proper prefix or has the smaller byte at the first difference |
| CellLaws.PlainOrder | src/hash.cpp:33-36 | integers by value, FALSE before TRUE, NULL after everything |
| CellLaws.OneOfThree | src/expression.cpp:70-77 | of two values of one type that are not NaN exactly one of less, equal and greater is TRUE, by the cell order |
| CellLaws.DerivedComparisons | src/expression.cpp:70-77 | not-equal negates equal, at-most and at-least are the disjunctions, greater is less with the sides exchanged |
| CellLaws.OddOperands | src/expression.cpp:139-146 | a NULL operand gives NULL and only that; with a NaN only not-equal is TRUE |
| CellLaws.EqualIsKeyClass | src/hash.cpp:46-58 | equality is TRUE exactly within one key class, and never for NULL or NaN |
| CellLaws.KeyClasses | src/hash.cpp:30-46 | two cells are one key when both are NULL, both are NaN, or they are equal |
| CellLaws.ComparisonMeaning | src/expression.cpp:139-146 | what each of the six comparisons of two typed expressions is on every typed row |
| CellLaws.LogicMeaning | src/expression.cpp:132-138 | AND is the lesser, OR the greater of FALSE, NULL and TRUE, NOT turns the scale around; De Morgan's laws |
| CellLaws.IntegerArithmetic | src/expression.cpp:80-92 | sums, differences and products are exact or NULL; a quotient truncates, its remainder has the sign of the dividend, and NULL stands for no quotient in range |
| CellLaws.RoundedArithmetic | src/expression.cpp:93-101 | a double result is the rounding of the exact real one; an exact zero has the sign the operands demand |
| CellLaws.OddArithmetic | src/expression.cpp:93-101 | arithmetic with infinities, NaN and a zero divisor |
| TypeLaws.BinaryAccepts | src/expression.cpp:27-36 | an operation is typed on operands of one type exactly when some values of it give an answer that is not NULL, and never on two types |
| TypeLaws.UnaryAccepts | src/expression.cpp:21-25 | the same of NOT and IS NULL |
| TypeLaws.FitsExactly | src/expression.cpp:16-37 | an expression has a type exactly when its parts fit: columns of the schema, equal operand types, numbers to arithmetic, booleans to logic |
| TypeLaws.RefusedExactly | src/plan.cpp:32-55 | a plan has no output schema exactly when one of its nodes throws: unknown or repeated columns, a filter that is not Boolean, outputs of another type, aggregates that do not fit, join keys missing, unequal in number or type |
| StarQuery.Q3Accepted | src/workloads.cpp:54-61 | the star query over its three tables is accepted, with its three output columns |
| Expressions.EvalTyped | src/expression.cpp:16-37 | a well-typed expression yields NULL or a value of its type on every typed row |
| Expressions.RefsTyped | src/expression.cpp:38-44 | a well-typed expression references only columns of the schema |
| Expressions.EvalDependsOnRefs | src/expression.cpp:38-44 | rows that agree on the referenced columns give the same value |
| Expressions.TypeDependsOnRefs | src/expression.cpp:16-44 | schemas that agree on the referenced columns give the same type |
| Expressions.EvalCongruent | src/plan.cpp:147-149 | a predicate cannot tell equal grouping keys apart, so it may be asked before the grouping |
| Expressions.EqualSameMeaning | src/expression.cpp:45-50 | expressions the engine calls equal reference the same columns and have the same value up to the sign of a zero |
| Expressions.EqualExactly | src/expression.cpp:45-50 | expressions alike up to the signs of zeros are called equal and no others, those with a NaN only by sharing, and a shared expression always |
| Simplify.FoldMeaning | src/plan.cpp:88-91 | a folded expression keeps its value and type, also when the value is NULL; an ill-typed one, which the engine refuses before it gets here, stays ill-typed |
| Simplify.SimplifyMeaning | src/plan.cpp:84-106 | simplification keeps the value on every typed row, and the type |
| Simplify.SimplifyRefs | src/plan.cpp:84-106 | simplification never adds a referenced column |
| Simplify.SimplifyGivesNormal | src/plan.cpp:84-106 | in a simplified expression no rule applies anywhere |
| Simplify.SimplifyIdempotent | src/plan.cpp:84-106 | simplifying twice changes nothing more |
| Aggregates.ExtremeIsEarliestBound | src/blocking.cpp:53-60 | the minimum or maximum is an input, bounds every input in the cell order and precedes its ties |
| AggregateStates.SumState | src/blocking.cpp:50-52 | the sticky overflow flag is set exactly when some running total leaves 64 bits; until then the wrapped accumulator is the exact sum |
| AggregateStates.ExtremeOfDoubles | src/blocking.cpp:55-61 | the accumulator of MIN or MAX over doubles is the earliest extreme, with NaN greatest |
| AggregateStates.StateShowsAggregate | src/blocking.cpp:44-75 | the finished state is shown as the aggregate of the non-NULL inputs: NULL for none, NULL SUM exactly on prefix overflow |
| Sequences.StableSortSorted | src/blocking.cpp:154-161 | the sorted list is in order under any total preorder |
| Sequences.StableSortMembers | src/blocking.cpp:154-161 | sorting permutes |
| Sequences.StableSortIsUnique | src/blocking.cpp:153-161 | exactly one order of the row ids is sorted with ties in place, and reading the rows by it gives the sorted list |
| RelationLaws.RowOrderIsTotal | src/blocking.cpp:154-161 | the sort comparator over rows, with its NULL placement, is a strict weak order |
| RelationLaws.KeepSort | src/plan.cpp:147-149 | a filter commutes with a stable sort, as lists |
| RelationLaws.KeepJoinLeft | src/plan.cpp:144-145 | a predicate with one answer per left row may be applied before the join, as lists |
| RelationLaws.KeepJoinRight | src/plan.cpp:146-146 | a predicate with one answer per right row may be applied before the join, as lists |
| RelationLaws.KeepAggregate | src/plan.cpp:147-149 | a predicate that respects the grouping keys may be applied before the aggregation: same groups, same order, same values |
| Plans.RowsTyped | src/plan.cpp:32-55 | every row a well-formed plan denotes has exactly the columns and types of its output schema |
| Rewrite.Rewrite | src/plan.cpp:126-163 | rewriting terminates although it re-enters itself on larger plans: the number of non-filter nodes never grows, and it or the size shrinks at every call |
| RewriteProof.ChainMeaning | src/plan.cpp:108-111 | the simplified conjuncts of a chain of filters keep exactly the rows the chain keeps, and are Boolean |
| RewriteProof.DeduplicateMeaning | src/plan.cpp:136-140 | dropping literal TRUE and repeated predicates changes no row's verdict |
| RewriteProof.IdentityDropped | src/plan.cpp:117-125 | a projection recognised as identity may be removed: same schema, types and names included, same rows |
| RewriteProof.ReorderMeaning | src/plan.cpp:159-159 | any ordering of the remaining filters keeps the same rows |
| RewriteProof.PushDownSound | src/plan.cpp:141-156 | a pushed predicate leaves the plan with the same schema and exactly the rows it accepts, in order |
| RewriteProof.PushAllSound | src/plan.cpp:141-158 | after offering every predicate, those left above accept from the changed plan what all accepted from the first |
| RewriteProof.SettleSound | src/plan.cpp:133-162 | rebuilding a filter chain keeps the schema and the list of rows |
| RewriteProof.RewriteSound | src/plan.cpp:126-163 | rewriting keeps the schema and the list of rows of every well-formed plan, for every estimate |
| PushdownRules.PushAggregate | src/plan.cpp:147-149 | pushing a predicate on grouping keys below the aggregation keeps schema and list |
| PushdownRules.PushProjection | src/plan.cpp:150-156 | pushing a substituted predicate below a projection that renames its columns keeps schema and list |
| PushdownRules.SubstituteMeaning | src/plan.cpp:112-116 | substituting aliases and asking the input row gives the answer of the output row |
| RewriteEffect.DeduplicateDistinct | src/plan.cpp:136-140 | no literal TRUE and no two equal predicates are left, and none is invented |
| RewriteEffect.RewriteSettles | src/plan.cpp:126-163 | afterwards no filter holds a conjunction or literal TRUE, none could be pushed further, and no identity projection is left |
| RewriteEffect.RewriteAscends | src/plan.cpp:159-161 | in a rewritten plan the filters of every chain stand by estimated selectivity, the most selective lowest |
| PruneProof.PruneSound | src/plan.cpp:164-190 | pruning keeps the row count and, on the columns it leaves, every row; it leaves a subsequence of the schema with every required column |
| PruneProof.PruneAllRequired | src/plan.cpp:192-193 | with every output column required, schema and list are unchanged |
| PruneEffect.PruneTight | src/plan.cpp:164-190 | afterwards nothing is scanned, computed or aggregated that is neither required nor read above |
| Optimizer.OptimizeSound | src/plan.cpp:192-196 | rewrite, prune and rewrite again give a plan with the same ids, types, names and order of columns and the same list of rows |
| Optimizer.OptimizeSettles | src/plan.cpp:194-195 | in the optimized plan every filter stands as low as the rules can bring it |
| PlanNodes.LogicalPlan.Clone | src/plan.cpp:15-17 | a deep copy is a tree that denotes the same plan and shares no node with it, also when the plan reaches a node by two paths |
| InPlace.SimplifyProjection | src/plan.cpp:129-132 | in place: simplified expressions, and the child instead of an identity |
| InPlace.CollectChain | src/plan.cpp:134-135 | walking down a chain of nodes collects its conjuncts and stops at the first other node |
| InPlace.DropRepeated | src/plan.cpp:136-140 | the loop keeps exactly the first of equal predicates, and no literal TRUE |
| InPlace.PushInto | src/plan.cpp:143-156 | a node's child is overwritten exactly when a rule applies, by the rewritten filtered child |
| InPlace.PushEach | src/plan.cpp:141-158 | the loop over predicates ends with the changed node and the predicates that stay |
| InPlace.SettleTree | src/plan.cpp:133-162 | the filter chain of a tree is rebuilt in place, owning its nodes, as on plan values |
| InPlace.RewriteTree | src/plan.cpp:126-163 | rewriting nodes in place refines rewriting the plan, and the result is again a tree of old or new nodes |
| InPlace.PruneTree | src/plan.cpp:164-190 | pruning nodes in place refines pruning the plan and allocates nothing |
| InPlace.OptimizeTree | src/plan.cpp:192-196 | for a plan that may share nodes: it is refused exactly when one of its nodes throws; otherwise a fresh tree with the plan's schema and rows, settled filters, and the argument untouched |
| HashIndex.SomeBucketEmpty | include/vqe/hash.hpp:17-18 | an index with fewer rows than buckets has an empty bucket, so every probe loop ends |
| HashIndex.MissedNothing | include/vqe/hash.hpp:23-30 | a probe that reaches an empty bucket has passed every entry of its hash, because no gap precedes an entry |
| HashIndex.ClaimKeepsInvariant | include/vqe/hash.hpp:31-39 | claiming the empty bucket a probe ended at keeps the no-gap invariant |
| HashIndex.HashIndex.Find | include/vqe/hash.hpp:23-30 | yields an entry of that hash accepted by the test, and none exactly when there is none |
| HashIndex.HashIndex.FindOrInsert | include/vqe/hash.hpp:31-39 | finds such an entry or adds the new row to the map of entries, at no more than 70% load |
| HashIndex.HashIndex.Grow | src/hash.cpp:60-67 | doubling the buckets keeps exactly the same entries |
| RowStore.EqualKeyIsTupleKey | src/hash.cpp:79-84 | the key test on cells accepts exactly the rows of one key class |
| RowStore.HashRespectsKeys | src/hash.cpp:10-51 | rows with equal keys have equal hashes, whichever zero or NaN they hold |
| RowStore.RowStore.Append | src/hash.cpp:69-73 | stores exactly one more row |
| RowStore.RowStore.AppendKey | src/hash.cpp:74-78 | stores exactly the key cells of a row |
| Chains.AddToChain | src/blocking.cpp:103-104 | linking a row behind its chain's tail keeps all chains |
| Chains.HeadWalkIsComplete | src/blocking.cpp:95-106 | following the links from a head visits every row with its key once, in row order, and ends at the recorded tail |
| JoinLists.OnlyBuildable | src/blocking.cpp:99-99 | build rows with a NULL or NaN key may be left out of the table |
| JoinLists.CursorEmits | src/blocking.cpp:125-131 | emitting the current match and following its link leaves exactly the rest of the join |
| JoinLists.CursorAdvances | src/blocking.cpp:124-124 | at the end of a chain the next probe row has the rest of the join ahead of it |
| Operators.HashJoin.InsertRow | src/blocking.cpp:97-105 | a build row is stored, indexed and chained unless its key is NULL or NaN |
| Operators.HashJoin.Build | src/blocking.cpp:95-106 | after the build the rows still to come are the same |
| Operators.HashJoin.LoadProbe | src/blocking.cpp:107-118 | loading a probe batch and locating its heads changes nothing of what is still to come |
| Operators.HashJoin.Next | src/blocking.cpp:119-134 | each batch is the next part of the nested-loop join, probe-major with matches in build order, for any capacity and from mid-chain; from the start that is the product of both sides filtered by the equality of all keys |
| EqualityLaws.MatchingIsEquality | src/blocking.cpp:99-116 | two rows match exactly when every key equation is TRUE on the two together; NULL and NaN never match |
| EqualityLaws.JoinIsFilteredProduct | src/blocking.cpp:119-134 | a join is the left-major product of its inputs filtered by its equations |
| EqualityLaws.JoinPlanMeaning | src/plan.cpp:40-46 | so is what every well-formed join denotes |
| EqualityLaws.HashJoinIsFilteredProduct | src/blocking.cpp:95-134 | the hash join produces, for every probe row in turn, the build rows whose keys are equal |
| EqualityLaws.EqualityFilter | src/operators.cpp:58-68 | a filter on a column equal to a literal keeps exactly the rows with a cell of the literal's key class |
| JoinMeaning.JoinRightMeaning | src/blocking.cpp:119-134 | with the right side built, the join is the left-major list on named rows, left columns first |
| JoinMeaning.JoinLeftMeaning | src/blocking.cpp:119-134 | with the left side built, the join is the right-major list, left columns still first |
| JoinMeaning.BuildSidesAgree | src/blocking.cpp:84-94 | both build sides give the same bag of rows |
| JoinMeaning.JoinOfBags | src/plan.cpp:213-213 | inputs with the same bags of rows join to the same bag, whichever side is built |
| BuildSideWitness.BuildSideChangesRows | src/plan.cpp:213-213 | a well-formed limit over a join of two scans that gives another bag of rows than it denotes when its left side is built |
| GroupLists.LeadersDistinct | src/blocking.cpp:39-43 | there is one group per distinct key |
| GroupMeaning.AggregateMeaning | src/blocking.cpp:67-80 | the emitted groups are the named rows of the list semantics: keys of the first row, aggregates of the members, one row for empty global input |
| GroupLaws.ExtremeDoubles | src/blocking.cpp:55-61 | MIN and MAX of a group's doubles bound them in the reals, with NaN greatest, and are NULL only without cells |
| GroupLaws.ExtremeIntegers | src/blocking.cpp:53-53 | MIN and MAX of a group's integers bound them |
| GroupLaws.ExtremeOfGroup | src/blocking.cpp:47-62 | MIN and MAX are cells of the group |
| GroupLaws.CountOfGroup | src/blocking.cpp:46-49 | COUNT is the number of rows with a cell that is not NULL, COUNT(*) of all rows |
| GroupLaws.SumOfGroup | src/blocking.cpp:52-52 | an integer SUM that is not NULL is the exact sum of the group's cells |
| Operators.HashAggregate.FindGroup | src/blocking.cpp:38-43 | the group of a row is found, or opened with initial states exactly for the first row of a key |
| Operators.HashAggregate.ConsumeRow | src/blocking.cpp:44-64 | every state slot of the row's group, and no other, takes the row |
| Operators.HashAggregate.Consume | src/blocking.cpp:34-66 | reading the whole input leaves the groups of all its rows |
| Operators.HashAggregate.Next | src/blocking.cpp:67-80 | each batch holds the next groups in order of first appearance with the aggregates of their rows, whose meaning `GroupLaws` gives |
| SortLists.TupleOrderIsTotal | src/blocking.cpp:154-161 | the comparator handed to the stable sort is a strict weak order |
| SortLists.EmitSorted | src/blocking.cpp:153-167 | emitting the rows by any order of the ids that is sorted with ties in place yields the stable sort of the input |
| SortLaws.SortedByKeys | src/blocking.cpp:154-161 | any two rows of a sorted list are in the order of the first key they are not tied on: NULL before values exactly under nulls-first, values up or down as the key says |
| SortLaws.EmittedByKeys | src/blocking.cpp:154-167 | the same of the rows the operator emits |
| SortLaws.TiesKeepTheirOrder | src/blocking.cpp:154-161 | rows tied on every key are emitted in the order they came in |
| Operators.Sort.Materialize | src/blocking.cpp:151-162 | storing the input and ordering its ids by any stable sort changes nothing of what is still to come |
| Operators.Sort.Next | src/blocking.cpp:149-169 | each batch is the next part of the stably sorted input, which `SortLaws` describes key by key |
| Operators.Filter.Choose | src/operators.cpp:60-63 | the new selection shows exactly the active rows on which the predicate is TRUE, in order |
| Operators.Filter.Next | src/operators.cpp:58-68 | each batch is the next non-empty part of the filtered input, whose batches it skips when nothing passes |
| Operators.Projection.ProjectBatch | src/operators.cpp:84-87 | column by column, the output columns hold the computed rows of the batch |
| Operators.Projection.Next | src/operators.cpp:82-89 | each batch is the next part of the computed rows |
| Operators.Limit.Next | src/blocking.cpp:140-144 | each batch is the next part of the first rows, and once they are out no operator below is touched |
| ScanLists.ScanStep | src/operators.cpp:46-50 | copying a range of a group leaves the rest of the scan, across group boundaries |
| Scan.Scan.Next | src/operators.cpp:39-53 | each batch is the next part of the rows of the groups that may match, and groups read and skipped are counted right |
| Operators.Operator.Next | include/vqe/operators.hpp:25-40 | one contract for every tree of operators, kept by pulling from children under the same contract: true exactly while rows are left, with a non-empty valid batch of the next of them, so false stays false |
| Operators.Operator.Collect | src/operators.cpp:93-97 | pulling to the end yields exactly the operator's list in bounded non-empty batches |
| Evaluator.Evaluator.Compile | src/expression.cpp:62-68 | nodes come in postorder with operands before their users and columns bound |
| Evaluator.Evaluator.EvaluateBinary | src/expression.cpp:117-147 | dense kernels and general loops agree with the row semantics on every active row of any batch, and fail exactly on `<` against a NULL integer literal over a dense batch without rows |
| Evaluator.Evaluator.Evaluate | src/expression.cpp:107-151 | on every active row of any batch the vector holds the value of the expression, whatever the payloads of invalid cells; evaluation fails if and only if a dense batch without rows meets an integer `<` with a NULL literal on its right |
| Evaluator.FoldConstant | src/plan.cpp:88-91 | running the evaluator on one row without columns gives the folded literal |
| Kernels.EvalArithmetic | src/expression.cpp:78-105 | checked arithmetic row by row, with overflow and zero divisors NULL |
| Kernels.EvalLogic | src/expression.cpp:128-148 | the validity formula and bytes of AND, OR and comparisons give three-valued logic |
| Kernels.LessConstant | src/kernels_scalar.cpp:5-7 | the dense comparison with a constant computes every row |
| Nodes.ConstantKernelReadsNull | src/expression.cpp:117-122 | the constant kernel is entered with a NULL literal exactly on a dense batch without physical rows |
| Nodes.EvaluationCanFail | src/expression.cpp:117-122 | a typed comparison and a batch of no rows on which the kernel is entered with a NULL literal |
| Statistics.MergeIsConcatenation | src/statistics.cpp:48-58 | merging the statistics of two lists gives exactly those of their concatenation, earliest ties and sketch included |
| Statistics.StatisticsCover | src/statistics.cpp:31-47 | everything gathered statistics claim is true of every cell |
| Statistics.SimpleMeaning | src/statistics.cpp:14-24 | a recognised comparison, flipped or not, means the comparison of the column with the literal |
| Statistics.MayCompareSound | src/statistics.cpp:68-79 | no false negative for one comparison, over NULLs, NaNs and missing bounds |
| Statistics.MayCompareExact | src/statistics.cpp:69-79 | but for equality, gathered statistics keep a group with an ordered cell exactly when some cell satisfies the comparison |
| StatisticsLaws.MayEqualExact | src/statistics.cpp:71-74 | for equality a group with some ordered cell is kept exactly when the literal lies between its cells |
| StatisticsLaws.MayCompareOdd | src/statistics.cpp:69-71 | what NULL and NaN literals, and groups without ordered cells, are kept for |
| StatisticsLaws.OneRowExact | src/statistics.cpp:59-80 | a group of one row without NaN is kept exactly when the row satisfies a predicate built of literals, comparisons with a literal, IS NULL, AND and OR |
| Statistics.MayMatchSound | src/statistics.cpp:59-80 | if any row of a group makes the predicate TRUE the group is kept, over nested AND and OR |
| Tables.AnalyzeColumn | src/statistics.cpp:33-45 | one pass gathers counts, NaN flag, earliest bounds and sketch of the active cells |
| Tables.Analyze | src/statistics.cpp:31-47 | the statistics of a batch are those of its active rows, column by column |
| Tables.MergeStatistics | src/statistics.cpp:48-58 | column by column, merged statistics are those of all rows |
| Tables.Compact | src/operators.cpp:19-21 | the dense copy shows exactly the active rows |
| Tables.Table.Append | src/operators.cpp:13-24 | adds the active rows as one group or refuses another shape; table-wide statistics stay those of all rows |
| PhysicalPlans.LowerIsLogical | src/plan.cpp:197-218 | lowering changes how a plan is carried out, not which plan |
| PhysicalPlans.LowerRuns | src/plan.cpp:197-218 | every lowered well-formed plan binds: its pruning predicates are Boolean over the table |
| PruningProof.NoneMatch | src/operators.cpp:42-45 | no scanned row of a group that cannot match satisfies the predicate |
| PruningProof.AddPruningKeeps | src/plan.cpp:205-210 | under the filter that is added to a scan's pruning, the pruned plan produces the same rows |
| PruningProof.ScanPrunesByChain | src/plan.cpp:205-210 | the scan under a chain of filters prunes by the conjunction of all their predicates |
| OperatorMeaning.ScanMeaning | src/operators.cpp:34-53 | an unpruned scan of some columns denotes the table's rows restricted to them |
| OperatorMeaning.SortMeaning | src/blocking.cpp:145-169 | the positional sort is the named stable sort |
| LoweringProof.LowerSound | src/plan.cpp:197-218 | for all build sides the lowered plan runs and produces, as a list, the plan's rows with left-built joins right-major |
| BuildSides.RightBuiltRows | src/plan.cpp:213-213 | if every join builds its right side, that list is the plan's |
| BuildSides.BagSafeRows | src/plan.cpp:213-213 | if no left-built join is below an aggregation or limit, it is the plan's bag |
| BuildSides.CertainRows | src/plan.cpp:213-213 | for all build sides, the certain columns show the plan's bag up to the sign of zeros: grouping keys, COUNT, MIN, MAX, integer SUM if it overflows in neither order |
| BuildSides.BagSafeIsCertain | src/plan.cpp:213-213 | every column is certain when no left-built join is below an aggregation or limit |
| BuildSides.GroupsOverBag | src/blocking.cpp:34-80 | grouping any tree of joins of scans, filters and projections keeps the grouping keys certain |
| BuildSides.LimitedRows | src/blocking.cpp:140-144 | a limit over rows in another order keeps as many rows, and only rows its input denotes |
| Outlines.KeepOutlines | src/operators.cpp:58-68 | a filter that reads only compared columns keeps inputs the same bag in those columns |
| Outlines.ProjectOutlines | src/operators.cpp:82-89 | outputs computed from compared columns are the same bag |
| Outlines.JoinOutlines | src/blocking.cpp:119-134 | a join on compared keys gives the same bag in the compared columns of both sides, whichever side is built |
| GroupOutlines.SameGroups | src/blocking.cpp:37-43 | inputs that are one bag in the keys give the same groups, up to order |
| GroupOutlines.ExtremeOfCells | src/blocking.cpp:53-61 | MIN and MAX of one bag of cells are one key class, in any order |
| GroupOutlines.AggregateOfCells | src/blocking.cpp:44-64 | COUNT, MIN and MAX of one bag of cells agree in any order, and integer SUM if neither order overflows |
| GroupOutlines.AggregateOutlines | src/blocking.cpp:34-80 | an aggregation on compared keys gives the same bag of groups in the columns that do not depend on order |
| GroupOutlines.SumDependsOnOrder | src/blocking.cpp:52-52 | an integer SUM that is NULL in one order of its inputs and not in another |
| Execution.ExecuteScan | include/vqe/storage.hpp:22-24 | scanning a memory source yields the rows of its surviving groups |
| Execution.Execute | src/plan.cpp:219-230 | the operators are put together as a tree of fresh objects whose root has exactly the rows the physical plan produces still to come, for any batch capacity |
| Engine.Run | src/plan.cpp:192-230 | optimize, lower, execute and pull give the original plan's schema and rows: the list if all joins build right, the bag if no left-built join is below an aggregation or limit, and always the bag of what the certain columns show |
| Words.ShiftLeftBit | src/vector.cpp:61-64 | where every bit goes under a left shift |
| Words.ShiftRightBit | src/vector.cpp:60-60 | where every bit goes under a right shift |
| Words.ShiftLeftIsMachine | src/vector.cpp:61-64 | shifting one place k times is the machine's left shift by k |
| Words.ShiftRightIsMachine | src/vector.cpp:60-60 | shifting one place k times is the machine's right shift by k |
| Words.LowMaskBit | src/vector.cpp:56-56 | the mask has exactly the lowest bits set |
| Words.CountShown | src/vector.cpp:62-62 | the population count of a masked word is the number of valid rows it shows |
| Bitmaps.SetBitShows | src/vector.cpp:43-44 | setting a bit changes that bit and no other |
| Bitmaps.ExtractBits | src/vector.cpp:59-62 | at every misalignment the extracted word holds the source bits from the start on, and zeros above |
| Bitmaps.SpliceBits | src/vector.cpp:64-64 | splicing replaces exactly the bits between two positions |
| Bitmaps.ChunkAppended | src/vector.cpp:55-65 | a spliced chunk appends exactly its bits, keeps a clear tail clear and counts its NULLs |
| Validity.Validity.Reset | src/vector.cpp:34-38 | all rows get one validity; the tail is clear exactly for an invalid fill or whole words |
| Validity.Validity.Set | src/vector.cpp:39-45 | changes one row, and the NULL count exactly when that changes anything |
| Validity.Validity.Append | src/vector.cpp:46-50 | adds one row; the NULL count is right exactly when the claimed bit was clear |
| Validity.AppendAfterReset | src/vector.cpp:34-50 | after a reset, one more row is counted right exactly when the fill was invalid or the size a multiple of 64 |
| Validity.Validity.AppendRange | src/vector.cpp:51-67 | appends exactly the range of the other bitmap with the NULL count right, and refuses itself or a range out of bounds |
| Arenas.OneString | src/vector.cpp:111-116 | appending a string keeps offsets monotone from 0 to the byte count, and adds exactly that string |
| Arenas.RangeTakes | src/vector.cpp:150-152 | a range of strings takes exactly the bytes between its offsets, which the 4 GiB test measures |
| Arenas.ManyStrings | src/vector.cpp:149-153 | copying a range rebases its offsets: the copied rows read back the same bytes and the old rows are unchanged |
| Columns.Column.Reset | src/vector.cpp:97-104 | every row is FALSE, 0, the positive zero or the empty string, and the column may grow if the size is a multiple of 64 |
| Columns.Column.Append | include/vqe/vector.hpp:73-75 | adds a payload with its validity; a string is refused, changing nothing, exactly when with it all strings of the column take 4 GiB or more |
| Columns.Column.AppendValue | src/vector.cpp:117-126 | adds a value or NULL, and refuses another type |
| Columns.Column.AppendFrom | src/vector.cpp:135-144 | copies one row, payload and validity, of another column or, unless it holds strings, of the column itself |
| Columns.Column.AppendRange | src/vector.cpp:145-160 | copies a range, or refuses exactly for itself, another type, bounds, or strings that with those stored take 4 GiB or more, changing nothing |
| Batches.RangeIsRowByRow | src/vector.cpp:145-160 | copying a range is copying its rows one by one |

## Left out

- BuildSides.CertainRows: sums of doubles above a left-built join are not compared, as their rounding depends on the order; what a filter, grouping key or join key makes of such a column is not either.
- AggregateStates.StateShowsAggregate: a COUNT beyond 64 bits shows NULL here, where the engine throws.
- Values.DoubleArith: the rounding of a non-zero exact result is an uninterpreted function, and all NaNs are one value.
- Values.CompareTransitive: cells of different types never meet in a typed plan; here they are ordered by type, where the engine throws.
- Expressions.EqualSameMeaning: which expression nodes are physically shared is an arbitrary relation on expressions.
- RowStore.HashRespectsKeys: the bit mixing is uninterpreted.
- HashIndex.HashIndex.Find: the mask of a hash is written as a remainder by the power-of-two capacity.
- Statistics.MergeIsConcatenation: the sketch is the set of its raised bits, not sixteen words, and counts are unbounded.
- Validity.Validity.AppendRange: sizes are unbounded.
- Columns.Column.AppendRange: the operators work on column values (`Batches.Vector`) that the class Columns.Column is proved to store; they do not run on the class, so the 4 GiB limit inside an operator, the reuse of output batches and capacity reservation are not modelled.
- Selections of 16-bit indices and the limit of 65535 rows to a batch: batch sizes are positive and unbounded.
- Selectivity and cardinality estimates: arbitrary functions, which only order filters and choose build sides.
- Parquet sources, the SIMD kernels and their dispatch, plan explanation, memory accounting, workload generation, examples and benchmarks.
