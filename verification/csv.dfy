/**
 * Rows of the comma-separated state files, at the level of cells rather than bytes.
 *
 * A cell is either the decimal rendering of an integer (`Num`) or some other text (`Text`).
 * By convention a `Text` cell never spells an integer: `int()` and `float()` succeed exactly
 * on `Num` cells, and `str.isdigit()` holds exactly on `Num` cells holding a non-negative
 * number (a leading minus sign is not a digit). The empty cell is `Text("")`.
 */
module Csv {
  import opened Wrappers

  datatype Cell = Num(n: int) | Text(s: string)

  type Row = seq<Cell>

  /** The Python exceptions the modelled code raises and does not catch. */
  datatype Error = ZeroDivisionError | KeyError | ValueError | TypeError | StopIteration

  /** Python's `int(cell)`. */
  function ParseInt(c: Cell): (r: Result<int, Error>)
    ensures r.Success? <==> c.Num?
    ensures r.Success? ==> r.value == c.n
    ensures r.Failure? ==> r.error == ValueError
  {
    match c
    case Num(n) => Success(n)
    case Text(_) => Failure(ValueError)
  }

  /** Python's `cell.isdigit()`. */
  predicate IsDigits(c: Cell) {
    c.Num? && c.n >= 0
  }

  /** Python's truth value of a cell string: only the empty string is falsy. */
  predicate IsTruthy(c: Cell) {
    c != Text("")
  }

  /** A one-cell row holding an identifier, as `writer.writerow([user_id])` writes it. */
  function IdRow(id: int): Row {
    [Num(id)]
  }

  /** An output file opened by `csv.writer` (or `csv.DictWriter`): the rows written so far. */
  class CsvWriter<T> {
    var rows: seq<T>

    constructor (initial: seq<T>)
      ensures rows == initial
    {
      rows := initial;
    }

    /** `writer.writerow(row)`: appends exactly one row. */
    method WriteRow(row: T)
      modifies this
      ensures rows == old(rows) + [row]
    {
      rows := rows + [row];
    }

    /** Opening the file with mode 'w': truncates it. */
    method Truncate()
      modifies this
      ensures rows == []
    {
      rows := [];
    }
  }
}
