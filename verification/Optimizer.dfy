/** The optimizer: rewrite, prune to the original columns, rewrite again. */
module Optimizer {
  import opened Plans
  import opened Rewrite
  import opened RewriteProof
  import opened PruneProof
  import opened RewriteEffect
  import Prune

  function Optimize(h: Hints, p: Plan): Plan {
    Rewrite.Rewrite(h, Prune.Prune(Rewrite.Rewrite(h, p), OutputIds(p)))
  }

  /**
   For every well-formed plan, every content of its sources and every selectivity estimate, the
   optimized plan has the same output columns and denotes the same list of rows.
   */
  lemma OptimizeSound(h: Hints, p: Plan)
    requires WellFormed(p)
    ensures Equivalent(p, Optimize(h, p))
  {
    RewriteSound(h, p);
    var rewritten := Rewrite.Rewrite(h, p);
    PruneAllRequired(rewritten);
    RewriteSound(h, Prune.Prune(rewritten, OutputIds(p)));
  }

  /** In the optimized plan every filter stands as low as the rules can bring it. */
  lemma OptimizeSettles(h: Hints, p: Plan)
    requires WellFormed(p)
    ensures Settled(Optimize(h, p))
  {
    RewriteSound(h, p);
    var rewritten := Rewrite.Rewrite(h, p);
    PruneAllRequired(rewritten);
    RewriteSettles(h, Prune.Prune(rewritten, OutputIds(p)));
  }
}
