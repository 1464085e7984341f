/** Query-result rows as the validators see them: a record whose columns are
    looked up by name, an absent column reading as SQL NULL. */
module Rows {

  /** A column value. `Null` stands for both SQL NULL and Python's `None`. */
  datatype Value = Null | Str(s: string) | Int(i: int)

  /** One result row: column name to value. */
  type Row = map<string, Value>

  /** The value of `column` in `row`, `Null` when the row has no such column
      (the `getattr(row, column, None)` lookup every validator uses). */
  function Get(row: Row, column: string): (v: Value)
    ensures v == Null <==> column !in row || row[column] == Null
    ensures v != Null ==> column in row && row[column] == v
  {
    if column in row then row[column] else Null
  }

  function Digit(d: nat): char
    requires d < 10
  {
    "0123456789"[d]
  }

  /** Decimal text of a natural number, most significant digit first. */
  function NatToString(n: nat): string
    decreases n
  {
    if n < 10 then [Digit(n)] else NatToString(n / 10) + [Digit(n % 10)]
  }

  /** Decimal text of an integer, as Python's `str` writes it. */
  function IntToString(i: int): string
  {
    if i < 0 then "-" + NatToString(-i) else NatToString(i)
  }

  /** The text an f-string gives a value: the string itself, the decimal
      digits of an integer, `None` for NULL. */
  function Render(v: Value): string
  {
    match v
    case Null => "None"
    case Str(s) => s
    case Int(i) => IntToString(i)
  }
}
