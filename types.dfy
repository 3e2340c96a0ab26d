/** The records shared by the filter widget: one filter row, the form data holding the
    ordered rows, and the query-ready mapping produced from them. */
module Types {
  import opened Wrappers

  /** A row value: a string, a number or a boolean. One list may mix the three. */
  datatype Value = Str(s: string) | Num(n: real) | Bool(b: bool)

  /** One filter row. `key` is empty while the row is unset; `unit` may be absent. */
  datatype FilterField = FilterField(
    key: string,
    operator: string,
    values: seq<Value>,
    unit: Option<string>)

  /** One query-ready entry: an operator code and the normalised values. It has no unit. */
  datatype Entry = Entry(operator: string, values: seq<Value>)

  /** Canonical field identifier to its entry. */
  type TransformedFilters = map<string, Entry>
}
