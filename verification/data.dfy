/**
 * Values shared by every service of the chat backend: an optional value
 * (Python's `X | None`), the scalar values a warehouse row can hold, rows
 * as ordered column/value pairs, and Python's truthiness tests on them.
 */
module Data {

  /** Python's `X | None`. */
  datatype Option<+T> = None | Some(value: T) {

    /** The wrapped value, or `default` when there is none. */
    function GetOr(default: T): T {
      match this
      case Some(v) => v
      case None => default
    }
  }

  /**
   * A scalar cell of a result row as the warehouse client hands it over:
   * Python `int`, `float`, `bool`, `str`, `None`, or any other Python type
   * (timestamps, decimals, dates, ...), which only carries its type name.
   */
  datatype Value =
    | IntVal(i: int)
    | FloatVal(f: real)
    | BoolVal(b: bool)
    | StrVal(s: string)
    | NoneVal
    | OtherVal(typeName: string)

  /** A result row: column names with their values, in the dict's key order. */
  type Row = seq<(string, Value)>

  /** Python truthiness of a `str | None`: present and non-empty. */
  predicate Truthy(s: Option<string>) {
    s.Some? && |s.value| > 0
  }

  /** Python truthiness of a `list[dict] | None`: present and non-empty. */
  predicate HasRows(rows: Option<seq<Row>>) {
    rows.Some? && |rows.value| > 0
  }
}
