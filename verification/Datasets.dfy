/** A dataset: a key prefix, a schema, and the partition of its rows by time. */
module Datasets {
  import P = TimePartition

  datatype Dataset = Dataset(
    prefix: string,
    names: seq<string>,
    column: string,
    unit: P.Unit,
    granularity: P.Granularity,
    window: P.Window
  )
}
