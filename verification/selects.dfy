/** The SELECT statements the oracles build (`GeneralSelect`): what they fetch,
    from which tables, with which joins, under which WHERE clause and in which
    order. The text a SELECT is sent as comes from the AST-to-SQL visitor, which
    is not part of this model, so each oracle takes that text as given. */
module Selects {
  import opened Base
  import opened Schema
  import ExprGen
  import Joins

  /** A fetched item: a column reference, or a condition rendered with the
      ` IS TRUE ` postfix text (`NewPostfixTextNode`). */
  datatype Item = ColumnItem(column: Column) | IsTrueItem(condition: ExprGen.Expr)

  /** A SELECT: fetched items, FROM list, joins, WHERE clause, ORDER BY terms. */
  datatype SelectQuery = SelectQuery(
    fetch: seq<Item>,
    from: seq<string>,
    joins: seq<Joins.Join<ExprGen.Expr>>,
    where: Option<ExprGen.Expr>,
    orderBy: seq<ExprGen.OrderTerm>)

  /** One column reference per column, in order. */
  function ColumnItems(columns: seq<Column>): (r: seq<Item>)
    ensures |r| == |columns| && forall i :: 0 <= i < |columns| ==> r[i] == ColumnItem(columns[i])
  {
    seq(|columns|, i requires 0 <= i < |columns| => ColumnItem(columns[i]))
  }
}
