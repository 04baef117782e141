/** Column pruning: each plan keeps only the columns that some plan above it reads. */
module Prune {
  import opened Values
  import opened Expressions
  import opened Sequences
  import opened Relations
  import opened Plans

  function Wanted(ids: set<ColumnId>): ColumnId -> bool {
    id => id in ids
  }

  function WantedField(ids: set<ColumnId>): Field -> bool {
    (f: Field) => f.id in ids
  }

  function WantedExpression(ids: set<ColumnId>): NamedExpr -> bool {
    (x: NamedExpr) => x.field.id in ids
  }

  function WantedAggregate(ids: set<ColumnId>): AggregateSpec -> bool {
    (a: AggregateSpec) => a.output.id in ids
  }

  function ExpressionRefs(xs: seq<NamedExpr>): set<ColumnId> {
    set x <- xs, id <- Refs(x.expr) :: id
  }

  function SortColumns(keys: seq<SortKey>): set<ColumnId> {
    set k <- keys :: k.column
  }

  function AggregateRefs(aggs: seq<AggregateSpec>): set<ColumnId> {
    set a <- aggs | a.input.Some? :: a.input.value
  }

  function Prune(p: Plan, required: set<ColumnId>): Plan {
    match p
    case Scan(source, columns) => Scan(source, Select(Wanted(required), columns))
    case Projection(l, xs) =>
      var kept := Select(WantedExpression(required), xs);
      Projection(Prune(l, ExpressionRefs(kept)), kept)
    case Filter(l, e) => Filter(Prune(l, required + Refs(e)), e)
    case Sort(l, keys) => Sort(Prune(l, required + SortColumns(keys)), keys)
    case Aggregate(l, keys, aggs) =>
      var kept := Select(WantedAggregate(required), aggs);
      Aggregate(Prune(l, KeySet(keys) + AggregateRefs(kept)), keys, kept)
    case Join(l, r, keys, rightKeys) =>
      var needed := required + KeySet(keys) + KeySet(rightKeys);
      Join(Prune(l, needed * OutputIds(l)), Prune(r, needed * OutputIds(r)), keys, rightKeys)
    case Limit(l, n) => Limit(Prune(l, required), n)
  }
}
