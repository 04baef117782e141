/** What pruning achieves: afterwards no plan produces a column that nothing above it reads. */
module PruneEffect {
  import opened Values
  import opened Expressions
  import opened Sequences
  import opened Relations
  import opened Plans
  import opened Prune

  /** Nothing is scanned, computed or aggregated in the plan but what is required or read above. */
  predicate Tight(p: Plan, required: set<ColumnId>) {
    match p
    case Scan(_, columns) => KeySet(columns) <= required
    case Filter(l, e) => Tight(l, required + Refs(e))
    case Projection(l, xs) => (forall x <- xs :: x.field.id in required) && Tight(l, ExpressionRefs(xs))
    case Aggregate(l, keys, aggs) =>
      (forall a <- aggs :: a.output.id in required) && Tight(l, KeySet(keys) + AggregateRefs(aggs))
    case Join(l, r, lk, rk) =>
      Tight(l, required + KeySet(lk) + KeySet(rk)) && Tight(r, required + KeySet(lk) + KeySet(rk))
    case Sort(l, keys) => Tight(l, required + SortColumns(keys))
    case Limit(l, _) => Tight(l, required)
  }

  lemma {:induction false} TightMonotone(p: Plan, required: set<ColumnId>, more: set<ColumnId>)
    requires Tight(p, required) && required <= more
    ensures Tight(p, more)
  {
    match p
    case Scan(_, _) =>
    case Filter(l, e) => TightMonotone(l, required + Refs(e), more + Refs(e));
    case Projection(_, _) =>
    case Aggregate(_, _, _) =>
    case Join(l, r, lk, rk) =>
      TightMonotone(l, required + KeySet(lk) + KeySet(rk), more + KeySet(lk) + KeySet(rk));
      TightMonotone(r, required + KeySet(lk) + KeySet(rk), more + KeySet(lk) + KeySet(rk));
    case Sort(l, keys) => TightMonotone(l, required + SortColumns(keys), more + SortColumns(keys));
    case Limit(l, _) => TightMonotone(l, required, more);
  }

  /** Pruning erases every column that is neither required nor read by a plan above its own. */
  lemma {:induction false} PruneTight(p: Plan, required: set<ColumnId>)
    ensures Tight(Prune.Prune(p, required), required)
  {
    match p
    case Scan(_, _) =>
    case Filter(l, e) => PruneTight(l, required + Refs(e));
    case Projection(l, xs) => PruneTight(l, ExpressionRefs(Select(WantedExpression(required), xs)));
    case Aggregate(l, keys, aggs) =>
      PruneTight(l, KeySet(keys) + AggregateRefs(Select(WantedAggregate(required), aggs)));
    case Join(l, r, lk, rk) =>
      var needed := required + KeySet(lk) + KeySet(rk);
      PruneTight(l, needed * OutputIds(l));
      PruneTight(r, needed * OutputIds(r));
      TightMonotone(Prune.Prune(l, needed * OutputIds(l)), needed * OutputIds(l), needed);
      TightMonotone(Prune.Prune(r, needed * OutputIds(r)), needed * OutputIds(r), needed);
    case Sort(l, keys) => PruneTight(l, required + SortColumns(keys));
    case Limit(l, _) => PruneTight(l, required);
  }
}
