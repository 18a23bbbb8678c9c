/** The query plan and schema facts the ORDER BY translation consumes. */
module Plan {
  import opened Wrappers
  import opened Ast

  /** A column of a table as the schema declares it; only its collation matters here. */
  datatype ColumnDef = ColumnDef(name: string, collation: Option<CollationSeq>)

  datatype Table = Table(columns: seq<ColumnDef>)

  /** `Table::get_column_at`: the column at a position, if there is one. */
  function GetColumnAt(table: Table, column: nat): (r: Option<ColumnDef>)
  {
    if column < |table.columns| then Some(table.columns[column]) else None
  }

  /** The tables of a query, by internal id (`TableReferences`). */
  datatype TableReferences = TableReferences(tables: map<TableInternalId, Table>)

  /** One column of the SELECT list. */
  datatype ResultSetColumn = ResultSetColumn(expr: Expr, alias: Option<string>)

  /** Whether the query is SELECT DISTINCT, and if so whether its deduplication context was built. */
  datatype Distinctness = NonDistinct | Distinct(hasCtx: bool)

  /** The parts of a SELECT plan that the ORDER BY translation reads. */
  datatype SelectPlan = SelectPlan(
    orderBy: Option<seq<(Expr, SortOrder)>>,
    resultColumns: seq<ResultSetColumn>,
    distinctness: Distinctness)
}
