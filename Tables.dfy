/** A parsed CSV file: named columns in file order and rows of cells. A cell is
    its text, or None where pandas reads a missing value (NaN). */
module Tables {
  import opened Basics

  type Cell = Option<string>

  datatype Table = Table(columns: seq<string>, rows: seq<seq<Cell>>)

  /** Position of the first column with this name; |columns| when there is none. */
  function ColumnIndex(columns: seq<string>, name: string): (k: nat)
    ensures k <= |columns|
    ensures k < |columns| ==> columns[k] == name
    ensures forall j :: 0 <= j < k ==> columns[j] != name
  {
    if |columns| == 0 || columns[0] == name then 0 else 1 + ColumnIndex(columns[1..], name)
  }

  /** The cell of a row at a column position; a short row reads as missing. */
  function CellAt(row: seq<Cell>, k: nat): Cell
  {
    if k < |row| then row[k] else None
  }
}
