/** Table cells as the parsers see them, and all-or-nothing parsing of a table's rows. */
module Html {
  import opened Domain

  /** A cell's stripped text, and what `int()` and `float()` make of it (`None` is `ValueError`). */
  datatype Cell = Cell(text: string, asInt: Option<int>, asFloat: Option<real>)

  /** A result, or the `CrawlerError` for a malformed row. */
  datatype Parsed<T> = Ok(value: T) | Malformed

  function IntCell(cell: Option<Cell>): Parsed<int> {
    if cell.Some? && cell.value.asInt.Some? then Ok(cell.value.asInt.value) else Malformed
  }

  function FloatCell(cell: Option<Cell>): Parsed<real> {
    if cell.Some? && cell.value.asFloat.Some? then Ok(cell.value.asFloat.value) else Malformed
  }

  function TextCell(cell: Option<Cell>): Parsed<string> {
    if cell.Some? then Ok(cell.value.text) else Malformed
  }

  /** `[_parse_row(row) for row in rows]`. */
  function ParseAll<R, T>(rows: seq<R>, parse: R -> Parsed<T>): Parsed<seq<T>> {
    if rows == [] then Ok([])
    else
      match parse(rows[0])
      case Malformed => Malformed
      case Ok(first) =>
        match ParseAll(rows[1..], parse)
        case Malformed => Malformed
        case Ok(rest) => Ok([first] + rest)
  }

  /** Never a partial dataset: every row in order, or an error exactly when some row is malformed. */
  lemma {:induction false} ParseAllOrNothing<R, T>(rows: seq<R>, parse: R -> Parsed<T>)
    ensures ParseAll(rows, parse).Ok? <==> forall i | 0 <= i < |rows| :: parse(rows[i]).Ok?
    ensures ParseAll(rows, parse).Ok? ==>
              && |ParseAll(rows, parse).value| == |rows|
              && forall i | 0 <= i < |rows| :: parse(rows[i]) == Ok(ParseAll(rows, parse).value[i])
  {
    if rows != [] {
      ParseAllOrNothing(rows[1..], parse);
      assert forall i | 0 < i < |rows| :: rows[i] == rows[1..][i - 1];
    }
  }
}
