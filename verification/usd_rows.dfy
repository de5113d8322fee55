/** Rows, as a scan writes them and filters read them. */
module UsdRows {
  import opened Wrappers

  datatype Value =
    Null | Varchar(text: string) | Bool(b: bool) | Integer(n: int) | Variant(length: Option<nat>, id: int)

  /** The values of the columns that are read. */
  type Row = seq<Value>

  datatype Time = DefaultTime | TimeCode(code: real)
}
