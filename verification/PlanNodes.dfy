/** Logical plans as mutable nodes. A plan may reach a node by two paths; its copy is a tree. */
module PlanNodes {
  import opened Values
  import opened Expressions
  import opened Relations
  import Plans

  datatype LogicalKind = ScanKind | FilterKind | ProjectionKind | AggregateKind | JoinKind | SortKind | LimitKind

  /** The fields of a node other than its children; which of them mean anything depends on the kind. */
  datatype Payload = Payload(source: Plans.Source, columns: seq<ColumnId>, keys: seq<ColumnId>,
                             rightKeys: seq<ColumnId>, condition: Expr, expressions: seq<NamedExpr>,
                             aggregates: seq<AggregateSpec>, sortKeys: seq<SortKey>, count: nat)

  const NO_PAYLOAD: Payload :=
    Payload(Plans.SourceData([], []), [], [], [], Literal(Null, BooleanType), [], [], [], 0)

  /** The plan of a node of this kind over these children. */
  function Compose(kind: LogicalKind, f: Payload, left: Plans.Plan, right: Plans.Plan): Plans.Plan {
    match kind
    case ScanKind => Plans.Scan(f.source, f.columns)
    case FilterKind => Plans.Filter(left, f.condition)
    case ProjectionKind => Plans.Projection(left, f.expressions)
    case AggregateKind => Plans.Aggregate(left, f.keys, f.aggregates)
    case JoinKind => Plans.Join(left, right, f.keys, f.rightKeys)
    case SortKind => Plans.Sort(left, f.sortKeys)
    case LimitKind => Plans.Limit(left, f.count)
  }

  const NO_PLAN: Plans.Plan := Plans.Scan(Plans.SourceData([], []), [])

  class LogicalPlan {
    const kind: LogicalKind
    var fields: Payload
    var left: LogicalPlan?
    var right: LogicalPlan?
    ghost var Repr: set<LogicalPlan>
    ghost var value: Plans.Plan

    /** A plan: every path down ends at a scan. Two paths may meet at a node. */
    ghost predicate Acyclic()
      reads this, Repr
      decreases Repr
    {
      && this in Repr
      && (left == null <==> kind.ScanKind?) && (right == null <==> !kind.JoinKind?)
      && (left != null ==> left in Repr && left.Repr < Repr && this !in left.Repr && left.Acyclic())
      && (right != null ==> right in Repr && right.Repr < Repr && this !in right.Repr && right.Acyclic())
      && value == Compose(kind, fields, if left != null then left.value else NO_PLAN,
                          if right != null then right.value else NO_PLAN)
    }

    /** A tree: the children are owned by the node and by nothing else. */
    ghost predicate Valid()
      reads this, Repr
      ensures Valid() ==> Acyclic()
      decreases Repr
    {
      && this in Repr
      && (left == null <==> kind.ScanKind?) && (right == null <==> !kind.JoinKind?)
      && (left != null ==> left in Repr && left.Repr < Repr && this !in left.Repr && left.Valid())
      && (right != null ==> right in Repr && right.Repr < Repr && this !in right.Repr && right.Valid())
      && (left != null && right != null ==> left.Repr !! right.Repr)
      && value == Compose(kind, fields, if left != null then left.value else NO_PLAN,
                          if right != null then right.value else NO_PLAN)
    }

    constructor (kind: LogicalKind, fields: Payload, left: LogicalPlan?, right: LogicalPlan?)
      requires left == null <==> kind.ScanKind?
      requires right == null <==> !kind.JoinKind?
      requires left != null ==> left.Acyclic()
      requires right != null ==> right.Acyclic()
      ensures Acyclic() && this.kind == kind && this.fields == fields && this.left == left && this.right == right
      ensures Valid() <==>
        && (left != null ==> left.Valid()) && (right != null ==> right.Valid())
        && (left != null && right != null ==> left.Repr !! right.Repr)
      ensures Repr == {this} + (if left != null then left.Repr else {}) + (if right != null then right.Repr else {})
      ensures value == Compose(kind, fields, if left != null then left.value else NO_PLAN,
                               if right != null then right.value else NO_PLAN)
    {
      this.kind, this.fields, this.left, this.right := kind, fields, left, right;
      Repr := {this} + (if left != null then left.Repr else {}) + (if right != null then right.Repr else {});
      value := Compose(kind, fields, if left != null then left.value else NO_PLAN,
                       if right != null then right.value else NO_PLAN);
    }

    /** The plan the nodes stand for. */
    function Value(): (v: Plans.Plan)
      requires Acyclic()
      reads this, Repr
      ensures v == value
      decreases Repr
    {
      Compose(kind, fields, if left != null then left.Value() else NO_PLAN,
              if right != null then right.Value() else NO_PLAN)
    }

    /** A deep copy: a tree that shares no node with the original, also where the original shares nodes. */
    method Clone() returns (copy: LogicalPlan)
      requires Acyclic()
      ensures copy.Valid() && fresh(copy.Repr) && copy.value == value
      decreases Repr
    {
      var l: LogicalPlan?, r: LogicalPlan? := null, null;
      if left != null {
        l := left.Clone();
      }
      if right != null {
        r := right.Clone();
      }
      copy := new LogicalPlan(kind, fields, l, r);
    }

    /** Overwrites the children and the fields of a node in place. */
    method Update(newFields: Payload, newLeft: LogicalPlan?, newRight: LogicalPlan?)
      requires newLeft == null <==> kind.ScanKind?
      requires newRight == null <==> !kind.JoinKind?
      requires newLeft != null ==> newLeft.Valid() && this !in newLeft.Repr
      requires newRight != null ==> newRight.Valid() && this !in newRight.Repr
      requires newLeft != null && newRight != null ==> newLeft.Repr !! newRight.Repr
      modifies this
      ensures Valid() && fields == newFields && left == newLeft && right == newRight
      ensures Repr == {this} + (if left != null then left.Repr else {}) + (if right != null then right.Repr else {})
      ensures value == Compose(kind, fields, if left != null then left.value else NO_PLAN,
                               if right != null then right.value else NO_PLAN)
    {
      hide Compose;
      fields, left, right := newFields, newLeft, newRight;
      Repr := {this} + (if left != null then left.Repr else {}) + (if right != null then right.Repr else {});
      value := Compose(kind, fields, if left != null then left.value else NO_PLAN,
                       if right != null then right.value else NO_PLAN);
    }
  }
}
