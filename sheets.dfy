/**
 * A worksheet as the hiding and styling code sees it: per-column dimension records
 * (hidden, width, outline level, collapsed) and cells addressed by (column letter, row).
 * A column or cell that was never written reads as the default record.
 */
module Sheets {
  import opened Wrappers
  import opened Values

  /** A header fill: none, or a solid fill of a colour given as hex digits. */
  datatype Fill = NoFill | SolidFill(color: string)

  datatype Cell = Cell(value: Value, fill: Fill, bold: bool, comment: Option<string>)

  const EmptyCell: Cell := Cell(Null, NoFill, false, None)

  datatype ColumnDim = ColumnDim(hidden: bool, width: int, outlineLevel: int, collapsed: bool)

  /** The record a column has before any attribute is written (width 13). */
  const DefaultDim: ColumnDim := ColumnDim(false, 13, 0, false)

  /** The observable state of a worksheet. */
  datatype SheetState = SheetState(dims: map<string, ColumnDim>, cells: map<(string, int), Cell>, maxRow: nat)

  function DimOf(st: SheetState, column: string): ColumnDim
  {
    if column in st.dims then st.dims[column] else DefaultDim
  }

  function CellOf(st: SheetState, column: string, row: int): Cell
  {
    if (column, row) in st.cells then st.cells[(column, row)] else EmptyCell
  }

  class Worksheet {
    var dims: map<string, ColumnDim>
    var cells: map<(string, int), Cell>
    /** The largest row index in use. */
    var maxRow: nat

    constructor(dims: map<string, ColumnDim>, cells: map<(string, int), Cell>, maxRow: nat)
      ensures this.dims == dims && this.cells == cells && this.maxRow == maxRow
    {
      this.dims := dims;
      this.cells := cells;
      this.maxRow := maxRow;
    }

    function State(): SheetState
      reads this
    {
      SheetState(dims, cells, maxRow)
    }
  }
}
