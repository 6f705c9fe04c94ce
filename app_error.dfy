/** The program's error type (`AppError`), with the Polars errors the model raises. */
module AppErrors {
  import opened Paths

  datatype PolarsError =
    | NoData(msg: string)
    | Duplicate
    | ShapeMismatch
    | Foreign(msg: string)

  datatype AppError =
    | InvalidInputPath(path: Path)
    | UnsupportedFormat(what: string)
    | Io(msg: string)
    | Polars(err: PolarsError)
    | Symphonia(msg: string)
    | JsonSerialization
    | Calamine(msg: string)
    | ColumnNotFound(column: string)
    | NoNumericColumns
}
