/**
 * The Glue table the flattened records are converted against
 * (Firehose/lib/stacks/Firehose.ts): its columns, in order, with their types.
 */
module GlueSchema {
  import opened Dicts
  import opened JsonValues

  datatype ColumnType = StringType | DoubleType

  datatype Column = Column(name: string, colType: ColumnType)

  const GlueColumns: seq<Column> := [
    Column("measure_name", StringType),
    Column("measure_value", DoubleType),
    Column("metadata.customer_id", StringType),
    Column("metadata.zip_code", StringType),
    Column("metadata.something_else", StringType)
  ]

  /** A JSON value a column of type `t` can hold. */
  predicate HasType(v: Json, t: ColumnType)
  {
    match t
    case StringType => v.JStr?
    case DoubleType => v.JNum?
  }

  /** The row has exactly the columns' names, in the columns' order, with values of their types. */
  predicate Conforms(row: Dict<Json>, columns: seq<Column>)
  {
    && |row| == |columns|
    && forall i :: 0 <= i < |row| ==> row[i].0 == columns[i].name && HasType(row[i].1, columns[i].colType)
  }
}
