/** The parts of the SQL syntax tree that the ORDER BY translation inspects. */
module Ast {

  /** Direction of one ORDER BY term. */
  datatype SortOrder = Asc | Desc

  /** A collating sequence; BINARY is the default one. */
  datatype CollationSeq = Binary | NoCase | Rtrim

  function DefaultCollation(): (r: CollationSeq)
  {
    Binary
  }

  /** Identifies a table among the tables a query references. */
  type TableInternalId = nat

  /**
   * An expression. Only two forms matter here: a reference to a column of a
   * referenced table, and an explicit `expr COLLATE name`. Every other form of
   * expression is an `Other`, told apart from the rest only by its tag.
   */
  datatype Expr =
    | Column(table: TableInternalId, column: nat)
    | Collate(inner: Expr, collationName: string)
    | Other(tag: nat)

  /** The translator's error type (a parse error carries its message). */
  datatype Error = ParseError(message: string)
}
