/**
 * The text grid produced by the file readers and the column configuration
 * that says where the parts are in it.
 */
module TextGrid {
  import opened Base

  /** `rows` as read, `nrows` and `ncols` as the reader set them. */
  datatype Grid = Grid(rows: seq<seq<string>>, nrows: int, ncols: int)

  /**
   * A configured column id. Python stores either a header title (`str`), a
   * zero-based index (`int`) or nothing (`None`) in the same attribute.
   */
  datatype ColumnId = Named(name: string) | Index(index: int) | NoColumn

  /** Python truthiness of a column id (`if grid.footprint_col:`). */
  predicate Truthy(c: ColumnId) {
    match c
    case Named(s) => s != ""
    case Index(i) => i != 0
    case NoColumn => false
  }

  /** Which file a grid holds; the name is used in error messages. */
  datatype Role = Bom | Pnp {
    function Name(): string {
      if Bom? then "BOM" else "PnP"
    }
  }

  /**
   * A grid with its column mapping. `firstRow` is 0-based (the header row when
   * there are headers); `lastRow` is an exclusive bound, -1 meaning "to the end".
   */
  datatype ConfiguredGrid = ConfiguredGrid(
    textGrid: Option<Grid>,
    hasColumnHeaders: bool,
    designatorCol: ColumnId,
    commentCol: ColumnId,
    coordXCol: ColumnId,
    coordYCol: ColumnId,
    layerCol: ColumnId,
    footprintCol: ColumnId,
    firstRow: int,
    lastRow: int)
}
