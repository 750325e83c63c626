/** Rows and files, as the dataset code sees them. */
module Rows {

  datatype Value = Null | Int(n: int) | Real(x: real) | Bool(b: bool) | Text(s: string)

  type Row = map<string, Value>

  /** A Parquet file is the list of batches written to it. */
  type File = seq<seq<Row>>
}
