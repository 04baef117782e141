/** From a logical plan to its rows: optimize, lower, execute. */
module Engine {
  import opened Values
  import opened Expressions
  import opened Relations
  import opened Plans
  import opened Batches
  import opened Rewrite
  import opened RewriteProof
  import opened Optimizer
  import opened PhysicalPlans
  import opened OperatorMeaning
  import opened LoweringProof
  import opened Outlines
  import opened BuildSides
  import opened Operators
  import opened Execution

  /**
   Runs a query. For every well-formed plan, every content of its sources, every selectivity and
   cardinality estimate and every batch capacity, the batches are those of the original plan's
   schema and show its rows: the very list when the joins build their right sides; the same bag
   when no join that builds its left side stands below an aggregation or a limit; and in any case
   the same bag of what the certain columns show, which leaves out what depends on an order.
   */
  method Run(h: Hints, rightSmaller: Smaller, p: Plan, batchSize: nat) returns (batches: seq<Batch>)
    requires WellFormed(p) && batchSize > 0
    ensures ValidStream(batches, SchemaTypes(SchemaOf(p))) && Bounded(batches, batchSize)
    ensures RightBuilt(Lower(rightSmaller, Optimize(h, p))) ==> Named(SchemaOf(p), StreamRows(batches)) == Rows(p)
    ensures BagSafe(Lower(rightSmaller, Optimize(h, p))) ==>
      multiset(Named(SchemaOf(p), StreamRows(batches))) == multiset(Rows(p))
    ensures forall sums ::
      AgreesOnCertain(Lower(rightSmaller, Optimize(h, p)), sums, Named(SchemaOf(p), StreamRows(batches)), Rows(p))
  {
    OptimizeSound(h, p);
    var optimized := Optimize(h, p);
    LowerSound(rightSmaller, optimized);
    var lowered := Lower(rightSmaller, optimized);
    var root := Execute(lowered, batchSize);
    batches := root.Collect();
    CarriedIsDenoted(lowered);
  }

  lemma CarriedIsDenoted(p: PhysicalPlan)
    requires WellFormed(Logical(p))
    ensures RightBuilt(p) ==> Carried(p) == Rows(Logical(p))
    ensures BagSafe(p) ==> multiset(Carried(p)) == multiset(Rows(Logical(p)))
    ensures forall sums :: AgreesOnCertain(p, sums, Carried(p), Rows(Logical(p)))
  {
    if RightBuilt(p) {
      RightBuiltRows(p);
    }
    if BagSafe(p) {
      BagSafeRows(p);
    }
    CertainRows(p, true);
    CertainRows(p, false);
  }
}
