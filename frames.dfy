/** A pandas table as the search service and the ledger loader see it: a
    set of column names and a sequence of rows keyed by column, each cell a
    string or NaN. */
module Frames {

  /** A cell after `read_csv`: text, or NaN (an empty field, or a field the row lacks). */
  datatype Cell = Value(s: string) | NaN

  type Row = map<string, Cell>

  datatype Frame = Frame(columns: set<string>, rows: seq<Row>)

  /** `row.get(col, '')` */
  function Get(row: Row, col: string): Cell
  {
    if col in row then row[col] else Value("")
  }

  /** `str(cell)`; a NaN prints as "nan". */
  function Str(c: Cell): string
  {
    match c
    case Value(s) => s
    case NaN => "nan"
  }

  /** Python truthiness of a cell: a NaN float is truthy, an empty string is not. */
  predicate Truthy(c: Cell)
  {
    c.NaN? || c.s != ""
  }

  /** `cell and pd.notna(cell)`: a non-empty string. */
  predicate Present(c: Cell)
  {
    c.Value? && c.s != ""
  }

  /** `DataFrame.empty`: no rows or no columns. */
  predicate IsEmpty(f: Frame)
  {
    |f.rows| == 0 || f.columns == {}
  }
}
