/**
 * Turning a configured text grid into a designator-keyed part index
 * (`__extract_grid` in the cross-check engine).
 */
module CrossCheckExtract {
  import opened Base
  import opened PyStr
  import opened OrderedDict
  import opened TextGrid

  /** `(Comment, Coord-X, Coord-Y, Layer, Footprint)`, all as text. */
  datatype Part = Part(comment: string, coordX: string, coordY: string, layer: string, footprint: string)

  /** `{Designator : Part}` in insertion order. */
  type PartIndex = Dict<string, Part>

  /* ---------------- column id types ---------------- */

  /** Header titles with headers, indices without; PnP also needs typed x and y ids. */
  ghost predicate ColumnTypesOk(cfg: ConfiguredGrid, role: Role) {
    if cfg.hasColumnHeaders then
      && cfg.designatorCol.Named? && cfg.commentCol.Named?
      && (role.Pnp? ==> cfg.coordXCol.Named? && cfg.coordYCol.Named?)
    else
      && cfg.designatorCol.Index? && cfg.commentCol.Index?
      && (role.Pnp? ==> cfg.coordXCol.Index? && cfg.coordYCol.Index?)
  }

  /** The first failing type check, in the order the source performs them. */
  function ColumnTypeError(cfg: ConfiguredGrid, role: Role): (r: Option<Error>)
    ensures r.None? <==> ColumnTypesOk(cfg, role)
    ensures r.Some? ==> r.value.ValueError?
  {
    var n := role.Name();
    if cfg.hasColumnHeaders then
      if !cfg.designatorCol.Named? then Some(ValueError(n + " designator column id must be a string"))
      else if !cfg.commentCol.Named? then Some(ValueError(n + " comment column id must be a string"))
      else if role.Pnp? && !cfg.coordXCol.Named? then Some(ValueError(n + " x column id must be a string"))
      else if role.Pnp? && !cfg.coordYCol.Named? then Some(ValueError(n + " y column id must be a string"))
      else None
    else
      if !cfg.designatorCol.Index? then Some(ValueError(n + " designator column id must be an int"))
      else if !cfg.commentCol.Index? then Some(ValueError(n + " comment column id must be an int"))
      else if role.Pnp? && !cfg.coordXCol.Index? then Some(ValueError(n + " x column id must be an int"))
      else if role.Pnp? && !cfg.coordYCol.Index? then Some(ValueError(n + " y column id must be an int"))
      else None
  }

  /* ---------------- header lookup ---------------- */

  /** A header cell equals the configured id only when the id is a title (Python `str == int` is False). */
  predicate Matches(cell: string, id: ColumnId) {
    id.Named? && cell == id.name
  }

  /**
   * `next((i for i in range(ncols) if header[i] == id), -1)` from position `i`.
   * The header row is fetched lazily, so a missing row only raises when `ncols > 0`.
   */
  function FindColumn(header: Option<seq<string>>, ncols: int, id: ColumnId, i: nat): (r: Result<int>)
    decreases ncols - i
    ensures r.Failure? ==> r.error == IndexError && i < ncols && (header.None? || |header.value| < ncols)
    ensures r.Success? && r.value >= 0 ==>
              && header.Some? && i <= r.value < ncols && r.value < |header.value|
              && Matches(header.value[r.value], id)
              && forall j :: i <= j < r.value ==> !Matches(header.value[j], id)
    ensures r.Success? && r.value < 0 ==>
              && r.value == -1
              && (i < ncols ==> header.Some? && ncols <= |header.value|)
              && (header.Some? ==> forall j :: i <= j < ncols && j < |header.value| ==> !Matches(header.value[j], id))
  {
    if i >= ncols then Success(-1)
    else if header.None? || i >= |header.value| then Failure(IndexError)
    else if Matches(header.value[i], id) then Success(i)
    else FindColumn(header, ncols, id, i + 1)
  }

  /** Column indices after resolution; -1 means "not used" (or "last column" for the layer). */
  datatype Columns = Columns(
    designator: int, comment: int, x: int, y: int, layer: int, footprint: int,
    footprintIsText: bool)  // a title used as an index without headers: `>= 0` raises TypeError

  function FindPnpColumns(cfg: ConfiguredGrid, header: Option<seq<string>>, ncols: int): Result<(int, int, int, int)>
  {
    var x :- FindColumn(header, ncols, cfg.coordXCol, 0);
    var y :- FindColumn(header, ncols, cfg.coordYCol, 0);
    var layer :- FindColumn(header, ncols, cfg.layerCol, 0);
    var fp :- if Truthy(cfg.footprintCol) then FindColumn(header, ncols, cfg.footprintCol, 0) else Success(-1);
    Success((x, y, layer, fp))
  }

  /** Resolves every configured column to an index (source lines 52-130). */
  function ResolveColumns(cfg: ConfiguredGrid, grid: Grid, role: Role): (r: Result<Columns>)
    requires ColumnTypesOk(cfg, role)
    ensures r.Success? && role.Bom? ==>
              r.value.x == -1 && r.value.y == -1 && r.value.layer == -1 && r.value.footprint == -1
    ensures r.Success? ==> !(role.Bom? && r.value.footprintIsText)
    ensures !cfg.hasColumnHeaders ==>
              && r.Success? && r.value.designator == cfg.designatorCol.index
              && r.value.comment == cfg.commentCol.index && r.value.layer == -1
    ensures !cfg.hasColumnHeaders && role.Pnp? ==>
              && r.Success? && r.value.x == cfg.coordXCol.index && r.value.y == cfg.coordYCol.index
              && r.value.footprint == (if Truthy(cfg.footprintCol) && cfg.footprintCol.Index? then cfg.footprintCol.index else -1)
              && r.value.footprintIsText == (Truthy(cfg.footprintCol) && cfg.footprintCol.Named?)
    ensures cfg.hasColumnHeaders && r.Success? ==>
              && 0 <= r.value.designator < grid.ncols && 0 <= r.value.comment < grid.ncols
              && !r.value.footprintIsText
    ensures r.Failure? ==> r.error == IndexError || r.error.ValueError?
  {
    var n := role.Name();
    if cfg.hasColumnHeaders then
      var header := PyIndex(grid.rows, cfg.firstRow);
      var des :- FindColumn(header, grid.ncols, cfg.designatorCol, 0);
      var cmt :- FindColumn(header, grid.ncols, cfg.commentCol, 0);
      var pnpCols :- if role.Pnp? then FindPnpColumns(cfg, header, grid.ncols) else Success((-1, -1, -1, -1));
      if des == -1 then Failure(ValueError(n + " designator column not found"))
      else if cmt == -1 then Failure(ValueError(n + " comment column not found"))
      else Success(Columns(des, cmt, pnpCols.0, pnpCols.1, pnpCols.2, pnpCols.3, false))
    else if role.Bom? then
      Success(Columns(cfg.designatorCol.index, cfg.commentCol.index, -1, -1, -1, -1, false))
    else
      var fp := if Truthy(cfg.footprintCol) && cfg.footprintCol.Index? then cfg.footprintCol.index else -1;
      var fpIsText := Truthy(cfg.footprintCol) && cfg.footprintCol.Named?;
      Success(Columns(cfg.designatorCol.index, cfg.commentCol.index,
                      cfg.coordXCol.index, cfg.coordYCol.index, -1, fp, fpIsText))
  }

  /**
   * With column headers every column is the first header cell equal to its
   * title; a designator or comment title found nowhere is a ValueError, and
   * an IndexError comes only from reading the header row.
   */
  lemma ResolveColumnsWithHeaders(cfg: ConfiguredGrid, grid: Grid, role: Role)
    requires ColumnTypesOk(cfg, role) && cfg.hasColumnHeaders
    ensures var r := ResolveColumns(cfg, grid, role);
      var header := PyIndex(grid.rows, cfg.firstRow);
      var des := FindColumn(header, grid.ncols, cfg.designatorCol, 0);
      var cmt := FindColumn(header, grid.ncols, cfg.commentCol, 0);
      var pnpCols := if role.Pnp? then FindPnpColumns(cfg, header, grid.ncols) else Success((-1, -1, -1, -1));
      && (r.Success? ==>
            && des == Success(r.value.designator) && cmt == Success(r.value.comment)
            && pnpCols == Success((r.value.x, r.value.y, r.value.layer, r.value.footprint)))
      && (des == Success(-1) && cmt.Success? && pnpCols.Success? ==>
            r == Failure(ValueError(role.Name() + " designator column not found")))
      && (des.Success? && des.value >= 0 && cmt == Success(-1) && pnpCols.Success? ==>
            r == Failure(ValueError(role.Name() + " comment column not found")))
      && (r.Failure? && r.error == IndexError ==> des.Failure? || cmt.Failure? || pnpCols.Failure?)
  {
  }

  /* ---------------- data rows ---------------- */

  /** `[first_row + (1 if headers else 0), last_row)`, with -1 meaning `nrows`. */
  function RowRange(cfg: ConfiguredGrid, grid: Grid, role: Role): (r: Result<(int, int)>)
    ensures r.Success? <==> (if cfg.lastRow == -1 then grid.nrows else cfg.lastRow) <= grid.nrows
    ensures r.Success? ==>
              r.value == (cfg.firstRow + (if cfg.hasColumnHeaders then 1 else 0),
                          if cfg.lastRow == -1 then grid.nrows else cfg.lastRow)
    ensures r.Success? ==> r.value.1 <= grid.nrows
    ensures r.Failure? ==> r.error == ValueError(role.Name() + " last row > number of rows")
  {
    var first := cfg.firstRow + (if cfg.hasColumnHeaders then 1 else 0);
    var last := if cfg.lastRow == -1 then grid.nrows else cfg.lastRow;
    if last > grid.nrows then Failure(ValueError(role.Name() + " last row > number of rows"))
    else Success((first, last))
  }

  /** Python `cells[i]` does not raise. */
  predicate Readable(cells: seq<string>, i: int) {
    PyIndex(cells, i).Some?
  }

  /** Python `cells[i]`, negative indices counting from the end. */
  function At(cells: seq<string>, i: int): string
    requires Readable(cells, i)
  {
    PyIndex(cells, i).value
  }

  /** The row itself, or IndexError. */
  function RowCells(grid: Grid, row: int): Result<seq<string>> {
    match PyIndex(grid.rows, row)
    case Some(cells) => Success(cells)
    case None => Failure(IndexError)
  }

  /** Whether the x/y columns are read at all (`coord_x_col_idx > -1 and coord_y_col_idx > -1`). */
  predicate ReadsCoords(cols: Columns) {
    cols.x > -1 && cols.y > -1
  }

  /**
   * The cells a row reads before the footprint, in source order: designator,
   * comment, then x and y when used, then the layer (or the last cell) for PnP.
   */
  predicate EarlyCellsReadable(cells: seq<string>, cols: Columns, role: Role) {
    && Readable(cells, cols.designator)
    && Readable(cells, cols.comment)
    && (ReadsCoords(cols) ==> Readable(cells, cols.x) && Readable(cells, cols.y))
    && (role.Pnp? ==> Readable(cells, if cols.layer >= 0 then cols.layer else -1))
  }

  /** One data row: its designator cell and the part record built from it (source lines 140-164). */
  function ReadRow(grid: Grid, cols: Columns, role: Role, row: int): (r: Result<(string, Part)>)
    ensures r.Failure? ==> r.error == IndexError || r.error == TypeError
  {
    if RowCells(grid, row).Failure? then Failure(IndexError)
    else
      var cells := RowCells(grid, row).value;
      if !EarlyCellsReadable(cells, cols, role) then Failure(IndexError)
      else
        var dsgn := At(cells, cols.designator);
        var cmnt := At(cells, cols.comment);
        var cx := if ReadsCoords(cols) then At(cells, cols.x) else "";
        var cy := if ReadsCoords(cols) then At(cells, cols.y) else "";
        if role.Bom? then Success((dsgn, Part(cmnt, cx, cy, "", "")))
        else if cols.footprintIsText then Failure(TypeError)
        else if cols.footprint >= 0 && !Readable(cells, cols.footprint) then Failure(IndexError)
        else
          var lr := At(cells, if cols.layer >= 0 then cols.layer else -1);
          var fp := if cols.footprint >= 0 then At(cells, cols.footprint) else "";
          Success((dsgn, Part(cmnt, cx, cy, lr, fp)))
  }

  /**
   * A row reads without error exactly when the row exists, the cells read
   * before the footprint exist, and for the PnP the footprint id is not a
   * title and its cell, when used, exists.
   */
  lemma ReadRowSucceeds(grid: Grid, cols: Columns, role: Role, row: int)
    ensures ReadRow(grid, cols, role, row).Success? <==>
      && RowCells(grid, row).Success? && EarlyCellsReadable(RowCells(grid, row).value, cols, role)
      && (role.Pnp? ==> !cols.footprintIsText)
      && (role.Pnp? && cols.footprint >= 0 ==> Readable(RowCells(grid, row).value, cols.footprint))
  {
  }

  /**
   * What a row read gives: the designator and comment cells as indexed, no
   * layer or footprint for the BOM, empty coordinates when they are not read,
   * the last cell as the layer when the PnP has no layer column; and only
   * IndexError or TypeError otherwise.
   */
  lemma ReadRowShape(grid: Grid, cols: Columns, role: Role, row: int)
    ensures var r := ReadRow(grid, cols, role, row);
      && (r.Success? ==> RowCells(grid, row).Success?)
      && (r.Success? ==>
            var cells := RowCells(grid, row).value;
            && Readable(cells, cols.designator) && r.value.0 == At(cells, cols.designator)
            && Readable(cells, cols.comment) && r.value.1.comment == At(cells, cols.comment))
      && (r.Success? && role.Bom? ==> r.value.1.layer == "" && r.value.1.footprint == "")
      && (r.Success? && !ReadsCoords(cols) ==> r.value.1.coordX == "" && r.value.1.coordY == "")
      && (r.Success? && role.Pnp? && cols.layer < 0 ==>
            var cells := RowCells(grid, row).value;
            |cells| > 0 && r.value.1.layer == cells[|cells| - 1])
      && (r.Failure? ==> r.error == IndexError || r.error == TypeError)
  {
  }

  /**
   * The other cells of a row read: the x and y cells when both are used, and
   * for the PnP the layer cell and the footprint cell (or "" without one).
   */
  lemma ReadRowCells(grid: Grid, cols: Columns, role: Role, row: int)
    ensures var r := ReadRow(grid, cols, role, row);
      && (r.Success? ==> RowCells(grid, row).Success?)
      && (r.Success? && ReadsCoords(cols) ==>
            var cells := RowCells(grid, row).value;
            && Readable(cells, cols.x) && r.value.1.coordX == At(cells, cols.x)
            && Readable(cells, cols.y) && r.value.1.coordY == At(cells, cols.y))
      && (r.Success? && role.Pnp? && cols.layer >= 0 ==>
            var cells := RowCells(grid, row).value;
            Readable(cells, cols.layer) && r.value.1.layer == At(cells, cols.layer))
      && (r.Success? && role.Pnp? ==>
            var cells := RowCells(grid, row).value;
            r.value.1.footprint == if cols.footprint >= 0 then At(cells, cols.footprint) else "")
  {
  }

  /** A key as the index stores it: no comma inside and no whitespace around it. */
  predicate CleanKey(k: string) {
    ',' !in k && (k == [] || (!IsSpace(k[0]) && !IsSpace(k[|k| - 1])))
  }

  /** Stripping comma-free tokens gives clean keys. */
  lemma StripTokensClean(tokens: seq<string>)
    requires forall k :: 0 <= k < |tokens| ==> ',' !in tokens[k]
    ensures forall k :: 0 <= k < |tokens| ==> CleanKey(Strip(tokens[k]))
  {
    forall k | 0 <= k < |tokens|
      ensures CleanKey(Strip(tokens[k]))
    {
      StripClean(tokens[k]);
    }
  }

  lemma StripClean(t: string)
    requires ',' !in t
    ensures CleanKey(Strip(t))
  {
    StripTrimmed(t);
    StripWithin(t, ',');
  }

  /**
   * The keys one designator cell yields: every comma-separated token, stripped
   * (empty ones too); there is at least one, and each is a clean key.
   */
  function DesignatorKeys(cell: string): (r: seq<string>)
    ensures |r| == |Split(cell, ',')| >= 1
    ensures forall k :: 0 <= k < |r| ==> CleanKey(r[k])
  {
    var tokens := Split(cell, ',');
    StripTokensClean(tokens);
    seq(|tokens|, i requires 0 <= i < |tokens| => Strip(tokens[i]))
  }

  /** A cell listing comma-free designators yields each of them, stripped, in order. */
  lemma DesignatorKeysOfList(names: seq<string>)
    requires |names| >= 1
    requires forall k :: 0 <= k < |names| ==> ',' !in names[k]
    ensures DesignatorKeys(Join(names, ',')) == seq(|names|, i requires 0 <= i < |names| => Strip(names[i]))
  {
    SplitJoin(names, ',');
  }

  /** A cell without a comma is one designator: the cell, stripped. */
  lemma DesignatorKeysSingle(cell: string)
    requires ',' !in cell
    ensures DesignatorKeys(cell) == [Strip(cell)]
  {
    SplitPiece(cell, ',');
    var r := DesignatorKeys(cell);
    assert |r| == 1 && r[0] == Strip(cell);
  }

  /** Writes `part` under every key, left to right. */
  function PutAll(d: PartIndex, keys: seq<string>, part: Part): PartIndex
  {
    if |keys| == 0 then d
    else Put(PutAll(d, keys[..|keys| - 1], part), keys[|keys| - 1], part)
  }

  /** After `PutAll` every listed key maps to `part`, other keys keep their record, and old keys keep their order. */
  lemma {:induction false} PutAllEntries(d: PartIndex, keys: seq<string>, part: Part)
    ensures var r := PutAll(d, keys, part);
      && (Valid(d) ==> Valid(r))
      && (forall k :: k in r.entries <==> k in d.entries || k in keys)
      && (forall k :: k in keys ==> r.entries[k] == part)
      && (forall k :: k in d.entries && k !in keys ==> r.entries[k] == d.entries[k])
      && |d.keys| <= |r.keys| && r.keys[..|d.keys|] == d.keys
  {
    if |keys| > 0 {
      var init := keys[..|keys| - 1];
      PutAllEntries(d, init, part);
      assert forall k :: k in keys <==> k in init || k == keys[|keys| - 1];
    }
  }

  /** A row's designator tokens together with its part record. */
  type KeyedPart = (seq<string>, Part)

  /** A row read with its designator cell split into keys. */
  function Keyed(read: Result<(string, Part)>): (r: Result<KeyedPart>)
    ensures r.Success? <==> read.Success?
    ensures r.Success? ==> r.value == (DesignatorKeys(read.value.0), read.value.1)
    ensures r.Failure? ==> r.error == read.error
  {
    match read
    case Success(rp) => Success((DesignatorKeys(rp.0), rp.1))
    case Failure(e) => Failure(e)
  }

  /** What reading each data row `first .. last-1` gives, in order. */
  function RowReads(grid: Grid, cols: Columns, role: Role, first: int, last: int): (rs: seq<Result<KeyedPart>>)
    ensures |rs| == if last <= first then 0 else last - first
    decreases last - first
  {
    if last <= first then []
    else RowReads(grid, cols, role, first, last - 1) + [Keyed(ReadRow(grid, cols, role, last - 1))]
  }

  /** Row read `i` is data row `first + i`, read and keyed. */
  lemma {:induction false} RowReadsAt(grid: Grid, cols: Columns, role: Role, first: int, last: int, i: int)
    requires 0 <= i < |RowReads(grid, cols, role, first, last)|
    ensures RowReads(grid, cols, role, first, last)[i] == Keyed(ReadRow(grid, cols, role, first + i))
    decreases last - first
  {
    if i < last - 1 - first {
      RowReadsAt(grid, cols, role, first, last - 1, i);
    }
  }

  /** The part index built from the row reads in order, or the first exception among them. */
  function FoldRows(rs: seq<Result<KeyedPart>>): Result<PartIndex>
  {
    if |rs| == 0 then Success(Empty())
    else
      var d :- FoldRows(rs[..|rs| - 1]);
      var rp :- rs[|rs| - 1];
      Success(PutAll(d, rp.0, rp.1))
  }

  /** The part index after the data rows `first .. last-1`. */
  function ExtractRows(grid: Grid, cols: Columns, role: Role, first: int, last: int): Result<PartIndex> {
    FoldRows(RowReads(grid, cols, role, first, last))
  }

  /** Folding the row reads fails only with the IndexError or TypeError of a row. */
  lemma RowReadsOutcome(grid: Grid, cols: Columns, role: Role, first: int, last: int)
    ensures var r := FoldRows(RowReads(grid, cols, role, first, last));
      r.Failure? ==> r.error == IndexError || r.error == TypeError
  {
    var rs := RowReads(grid, cols, role, first, last);
    if FoldRows(rs).Failure? {
      var i := FoldRowsFirstError(rs);
      RowReadsAt(grid, cols, role, first, last, i);
    }
  }

  /**
   * `__extract_grid` as a function of the configured grid: a column id of the
   * wrong type is reported first; a built index implies that the columns
   * resolved and the row range was valid; the only exceptions are
   * ValueError, IndexError and TypeError.
   */
  function ExtractGrid(cfg: ConfiguredGrid, role: Role): (r: Result<PartIndex>)
    requires cfg.textGrid.Some?
    ensures ColumnTypeError(cfg, role).Some? ==> r == Failure(ColumnTypeError(cfg, role).value)
    ensures r.Success? ==>
              && ColumnTypesOk(cfg, role)
              && ResolveColumns(cfg, cfg.textGrid.value, role).Success?
              && RowRange(cfg, cfg.textGrid.value, role).Success?
    ensures r.Failure? ==> r.error.ValueError? || r.error == IndexError || r.error == TypeError
  {
    match ColumnTypeError(cfg, role)
    case Some(e) => Failure(e)
    case None =>
      var grid := cfg.textGrid.value;
      var cols :- ResolveColumns(cfg, grid, role);
      var range :- RowRange(cfg, grid, role);
      RowReadsOutcome(grid, cols, role, range.0, range.1);
      ExtractRows(grid, cols, role, range.0, range.1)
  }

  /* ---------------- the extraction loop ---------------- */

  /** The inner loop: `for d in dsgn.split(','): output[d.strip()] = part`. */
  method PutDesignators(output: PartIndex, dsgn: string, part: Part) returns (r: PartIndex)
    ensures r == PutAll(output, DesignatorKeys(dsgn), part)
  {
    var tokens := Split(dsgn, ',');
    ghost var keys := DesignatorKeys(dsgn);
    r := output;
    assert |keys| == |tokens|;
    for t := 0 to |tokens|
      invariant r == PutAll(output, keys[..t], part)
    {
      var d := Strip(tokens[t]);
      assert d == keys[t];
      assert keys[..t + 1][..t] == keys[..t];
      r := Put(r, d, part);
    }
    assert keys[..|tokens|] == keys;
  }

  /**
   * `__extract_grid`: type checks, column lookup and row bounds, then the row
   * loop with its inner loop over the comma-separated designators.
   */
  method Extract(cfg: ConfiguredGrid, role: Role) returns (r: Result<PartIndex>)
    requires cfg.textGrid.Some?
    ensures r == ExtractGrid(cfg, role)
  {
    var typeError := ColumnTypeError(cfg, role);
    if typeError.Some? {
      return Failure(typeError.value);
    }
    var grid := cfg.textGrid.value;
    var resolved := ResolveColumns(cfg, grid, role);
    if resolved.Failure? {
      return Failure(resolved.error);
    }
    var cols := resolved.value;
    var range := RowRange(cfg, grid, role);
    if range.Failure? {
      return Failure(range.error);
    }
    r := ExtractDataRows(grid, cols, role, range.value.0, range.value.1);
  }

  /** Folding one more row read onto a built index. */
  lemma FoldRowsAppend(rs: seq<Result<KeyedPart>>, x: Result<KeyedPart>)
    ensures FoldRows(rs).Failure? ==> FoldRows(rs + [x]) == FoldRows(rs)
    ensures FoldRows(rs).Success? && x.Failure? ==> FoldRows(rs + [x]) == Failure(x.error)
    ensures FoldRows(rs).Success? && x.Success? ==>
              FoldRows(rs + [x]) == Success(PutAll(FoldRows(rs).value, x.value.0, x.value.1))
  {
    assert (rs + [x])[..|rs|] == rs;
  }

  /** Reading data rows `first .. row` (inclusive) extends the reads of `first .. row-1` by one. */
  lemma RowReadsNext(grid: Grid, cols: Columns, role: Role, first: int, row: int)
    requires first <= row
    ensures RowReads(grid, cols, role, first, row + 1) ==
              RowReads(grid, cols, role, first, row) + [Keyed(ReadRow(grid, cols, role, row))]
  {
  }

  /** Once a row raises, reading further rows cannot undo it. */
  lemma {:induction false} ExtractRowsFailureSticks(grid: Grid, cols: Columns, role: Role, first: int, row: int, last: int)
    requires first <= row <= last
    requires ExtractRows(grid, cols, role, first, row).Failure?
    ensures ExtractRows(grid, cols, role, first, last) == ExtractRows(grid, cols, role, first, row)
    decreases last - row
  {
    if row < last {
      RowReadsNext(grid, cols, role, first, row);
      FoldRowsAppend(RowReads(grid, cols, role, first, row), Keyed(ReadRow(grid, cols, role, row)));
      ExtractRowsFailureSticks(grid, cols, role, first, row + 1, last);
    }
  }

  /** A row that raises ends the row loop with its exception. */
  lemma ExtractRowsRaise(grid: Grid, cols: Columns, role: Role, first: int, last: int, row: int)
    requires first <= row < last && ReadRow(grid, cols, role, row).Failure?
    requires ExtractRows(grid, cols, role, first, row).Success?
    ensures ExtractRows(grid, cols, role, first, last) == Failure(ReadRow(grid, cols, role, row).error)
  {
    RowReadsNext(grid, cols, role, first, row);
    FoldRowsAppend(RowReads(grid, cols, role, first, row), Keyed(ReadRow(grid, cols, role, row)));
    ExtractRowsFailureSticks(grid, cols, role, first, row + 1, last);
  }

  /** A row that reads writes its record under each of its designator tokens. */
  lemma ExtractRowsPut(grid: Grid, cols: Columns, role: Role, first: int, row: int, d: PartIndex)
    requires first <= row && ReadRow(grid, cols, role, row).Success?
    requires ExtractRows(grid, cols, role, first, row) == Success(d)
    ensures var read := ReadRow(grid, cols, role, row).value;
      ExtractRows(grid, cols, role, first, row + 1) == Success(PutAll(d, DesignatorKeys(read.0), read.1))
  {
    RowReadsNext(grid, cols, role, first, row);
    FoldRowsAppend(RowReads(grid, cols, role, first, row), Keyed(ReadRow(grid, cols, role, row)));
  }

  /** One turn of the row loop: a row that raises ends it, any other row is written under its designators. */
  lemma ExtractRowsStep(grid: Grid, cols: Columns, role: Role, first: int, row: int, last: int, d: PartIndex)
    requires first <= row < last
    requires ExtractRows(grid, cols, role, first, row) == Success(d)
    ensures var rr := ReadRow(grid, cols, role, row);
      && (rr.Failure? ==> ExtractRows(grid, cols, role, first, last) == Failure(rr.error))
      && (rr.Success? ==>
            ExtractRows(grid, cols, role, first, row + 1) == Success(PutAll(d, DesignatorKeys(rr.value.0), rr.value.1)))
  {
    if ReadRow(grid, cols, role, row).Failure? {
      ExtractRowsRaise(grid, cols, role, first, last, row);
    } else {
      ExtractRowsPut(grid, cols, role, first, row, d);
    }
  }

  /**
   * The body of the row loop for data row `row`: reads the row and writes
   * its record into `output` under each designator token.  A failure is the
   * outcome of the whole loop; a success is the index after this row.
   */
  method ExtractDataRow(grid: Grid, cols: Columns, role: Role, first: int, row: int, last: int, output: PartIndex)
    returns (r: Result<PartIndex>)
    requires first <= row < last
    requires ExtractRows(grid, cols, role, first, row) == Success(output)
    ensures r.Failure? ==> r == ExtractRows(grid, cols, role, first, last)
    ensures r.Success? ==> r == ExtractRows(grid, cols, role, first, row + 1)
  {
    ExtractRowsStep(grid, cols, role, first, row, last, output);
    var read := ReadRow(grid, cols, role, row);
    if read.Failure? {
      return Failure(read.error);
    }
    var next := PutDesignators(output, read.value.0, read.value.1);
    return Success(next);
  }

  /** `for row in range(first_row, last_row)`: the row loop of `__extract_grid`. */
  method ExtractDataRows(grid: Grid, cols: Columns, role: Role, first: int, last: int) returns (r: Result<PartIndex>)
    ensures r == ExtractRows(grid, cols, role, first, last)
  {
    var output: PartIndex := Empty();
    if last <= first {
      return Success(output);
    }
    for row := first to last
      invariant ExtractRows(grid, cols, role, first, row) == Success(output)
    {
      var step := ExtractDataRow(grid, cols, role, first, row, last, output);
      if step.Failure? {
        return step;
      }
      output := step.value;
    }
    return Success(output);
  }

  /* ---------------- what the index contains ---------------- */

  /** Row read `i` succeeded and one of its designator tokens is `key`. */
  ghost predicate RowHasKey(rs: seq<Result<KeyedPart>>, i: int, key: string) {
    0 <= i < |rs| && rs[i].Success? && key in rs[i].value.0
  }

  /** `i` is the last row read among the first `n` that lists `key`. */
  ghost predicate LastRowWith(rs: seq<Result<KeyedPart>>, n: int, i: int, key: string) {
    && 0 <= i < n <= |rs|
    && RowHasKey(rs, i, key)
    && forall j :: i < j < n ==> !RowHasKey(rs, j, key)
  }

  /** An index is built exactly when every data row reads without error. */
  lemma {:induction false} FoldRowsReadable(rs: seq<Result<KeyedPart>>)
    ensures FoldRows(rs).Success? <==> forall i :: 0 <= i < |rs| ==> rs[i].Success?
  {
    if |rs| > 0 {
      var init := rs[..|rs| - 1];
      FoldRowsReadable(init);
      assert forall i :: 0 <= i < |init| ==> init[i] == rs[i];
    }
  }

  /** A failed fold reports the exception of the first row read that failed. */
  lemma {:induction false} FoldRowsFirstError(rs: seq<Result<KeyedPart>>) returns (i: int)
    requires FoldRows(rs).Failure?
    ensures 0 <= i < |rs| && rs[i].Failure? && rs[i].error == FoldRows(rs).error
    ensures forall j :: 0 <= j < i ==> rs[j].Success?
  {
    var init := rs[..|rs| - 1];
    if FoldRows(init).Failure? {
      i := FoldRowsFirstError(init);
    } else {
      FoldRowsReadable(init);
      i := |rs| - 1;
    }
  }

  /** The keys of the index are exactly the stripped designator tokens of the rows read. */
  lemma {:induction false} FoldRowsKeys(rs: seq<Result<KeyedPart>>)
    requires FoldRows(rs).Success?
    ensures forall key :: key in FoldRows(rs).value.entries <==> exists i :: RowHasKey(rs, i, key)
  {
    if |rs| > 0 {
      var n := |rs| - 1;
      var init := rs[..n];
      FoldRowsKeys(init);
      var d' := FoldRows(init).value;
      var rp := rs[n].value;
      var keys := rp.0;
      var d := FoldRows(rs).value;
      assert d == PutAll(d', keys, rp.1);
      PutAllEntries(d', keys, rp.1);
      forall key ensures key in d.entries <==> exists i :: RowHasKey(rs, i, key) {
        if key in keys {
          assert RowHasKey(rs, n, key);
        }
        if key in d'.entries {
          var i :| RowHasKey(init, i, key);
          assert RowHasKey(rs, i, key);
        }
        if i :| RowHasKey(rs, i, key) {
          if i < n {
            assert RowHasKey(init, i, key);
          }
        }
      }
    }
  }

  /** A later row overwrites an earlier one: a key holds the record of the last row listing it. */
  lemma {:induction false} FoldRowsLastWins(rs: seq<Result<KeyedPart>>)
    requires FoldRows(rs).Success?
    ensures forall i, key :: LastRowWith(rs, |rs|, i, key) ==>
              key in FoldRows(rs).value.entries && FoldRows(rs).value.entries[key] == rs[i].value.1
  {
    if |rs| > 0 {
      var n := |rs| - 1;
      var init := rs[..n];
      FoldRowsLastWins(init);
      var d' := FoldRows(init).value;
      var rp := rs[n].value;
      var keys := rp.0;
      var d := FoldRows(rs).value;
      assert d == PutAll(d', keys, rp.1);
      PutAllEntries(d', keys, rp.1);
      forall i, key | LastRowWith(rs, |rs|, i, key)
        ensures key in d.entries && d.entries[key] == rs[i].value.1
      {
        if i < n {
          assert !RowHasKey(rs, n, key);
          assert key !in keys;
          forall j | i < j < n ensures !RowHasKey(init, j, key) {
            assert !RowHasKey(rs, j, key);
          }
          assert LastRowWith(init, n, i, key);
        }
      }
    }
  }

  /** Every entry of the index is the record of the last row read that lists its key. */
  lemma {:induction false} FoldRowsOrigin(rs: seq<Result<KeyedPart>>)
    requires FoldRows(rs).Success?
    ensures forall key :: key in FoldRows(rs).value.entries ==> exists i ::
              LastRowWith(rs, |rs|, i, key) && FoldRows(rs).value.entries[key] == rs[i].value.1
  {
    if |rs| > 0 {
      var n := |rs| - 1;
      var init := rs[..n];
      FoldRowsOrigin(init);
      var d' := FoldRows(init).value;
      var rp := rs[n].value;
      var keys := rp.0;
      var d := FoldRows(rs).value;
      assert d == PutAll(d', keys, rp.1);
      PutAllEntries(d', keys, rp.1);
      forall key | key in d.entries
        ensures exists i :: LastRowWith(rs, |rs|, i, key) && d.entries[key] == rs[i].value.1
      {
        if key in keys {
          assert LastRowWith(rs, |rs|, n, key);
        } else {
          var i :| LastRowWith(init, n, i, key) && d'.entries[key] == init[i].value.1;
          assert !RowHasKey(rs, n, key);
          forall j | i < j < |rs| ensures !RowHasKey(rs, j, key) {
            if j < n {
              assert !RowHasKey(init, j, key);
            }
          }
          assert LastRowWith(rs, |rs|, i, key);
        }
      }
    }
  }

  /** The index is a well-formed ordered dict: each key once, keys and entries in step. */
  lemma {:induction false} FoldRowsValid(rs: seq<Result<KeyedPart>>)
    requires FoldRows(rs).Success?
    ensures Valid(FoldRows(rs).value)
  {
    if |rs| > 0 {
      var init := rs[..|rs| - 1];
      FoldRowsValid(init);
      var rp := rs[|rs| - 1].value;
      PutAllEntries(FoldRows(init).value, rp.0, rp.1);
    }
  }

  /* ---------------- the index in terms of the grid ---------------- */

  /** Each entry of the index is the record of the last row read that lists its key. */
  lemma ExtractRowsEntry(grid: Grid, cols: Columns, role: Role, first: int, last: int, key: string)
    returns (i: int)
    requires ExtractRows(grid, cols, role, first, last).Success?
    requires key in ExtractRows(grid, cols, role, first, last).value.entries
    ensures 0 <= i < |RowReads(grid, cols, role, first, last)|
    ensures LastRowWith(RowReads(grid, cols, role, first, last), |RowReads(grid, cols, role, first, last)|, i, key)
    ensures ExtractRows(grid, cols, role, first, last).value.entries[key] == RowReads(grid, cols, role, first, last)[i].value.1
  {
    var rs := RowReads(grid, cols, role, first, last);
    FoldRowsOrigin(rs);
    i :| LastRowWith(rs, |rs|, i, key) && FoldRows(rs).value.entries[key] == rs[i].value.1;
  }

  /** Row read `i` is data row `first + i`, read. */
  lemma RowReadsPart(grid: Grid, cols: Columns, role: Role, first: int, last: int, i: int)
    requires 0 <= i < |RowReads(grid, cols, role, first, last)|
    ensures var read := RowReads(grid, cols, role, first, last)[i];
      && (read.Success? <==> ReadRow(grid, cols, role, first + i).Success?)
      && (read.Success? ==> read.value.1 == ReadRow(grid, cols, role, first + i).value.1)
  {
    RowReadsAt(grid, cols, role, first, last, i);
  }

  /**
   * Row read `i` (data row `first + i`, as `RowReadsAt` shows) is where an
   * entry comes from: the last row read listing `key`, whose record the
   * entry is.
   */
  ghost predicate IsEntryRead(cfg: ConfiguredGrid, role: Role, key: string, i: int)
    requires cfg.textGrid.Some? && ExtractGrid(cfg, role).Success?
  {
    var grid := cfg.textGrid.value;
    var cols := ResolveColumns(cfg, grid, role).value;
    var range := RowRange(cfg, grid, role).value;
    var rs := RowReads(grid, cols, role, range.0, range.1);
    && LastRowWith(rs, |rs|, i, key)
    && key in ExtractGrid(cfg, role).value.entries
    && ExtractGrid(cfg, role).value.entries[key] == rs[i].value.1
  }

  /** Every key of an extracted index comes from the last data row listing it. */
  lemma ExtractGridEntry(cfg: ConfiguredGrid, role: Role, key: string) returns (i: int)
    requires cfg.textGrid.Some? && ExtractGrid(cfg, role).Success?
    requires key in ExtractGrid(cfg, role).value.entries
    ensures IsEntryRead(cfg, role, key, i)
  {
    var grid := cfg.textGrid.value;
    var range := RowRange(cfg, grid, role).value;
    i := ExtractRowsEntry(grid, ResolveColumns(cfg, grid, role).value, role, range.0, range.1, key);
  }

  /** A successful extraction is the fold over the configured data rows. */
  lemma ExtractGridRows(cfg: ConfiguredGrid, role: Role)
    requires cfg.textGrid.Some? && ExtractGrid(cfg, role).Success?
    ensures var grid := cfg.textGrid.value;
      var range := RowRange(cfg, grid, role).value;
      ExtractGrid(cfg, role) == ExtractRows(grid, ResolveColumns(cfg, grid, role).value, role, range.0, range.1)
  {
  }

  /** An extracted index is well formed: one entry per key, no other entries. */
  lemma ExtractGridValid(cfg: ConfiguredGrid, role: Role)
    requires cfg.textGrid.Some? && ExtractGrid(cfg, role).Success?
    ensures Valid(ExtractGrid(cfg, role).value)
  {
    var grid := cfg.textGrid.value;
    var range := RowRange(cfg, grid, role).value;
    ExtractGridRows(cfg, role);
    FoldRowsValid(RowReads(grid, ResolveColumns(cfg, grid, role).value, role, range.0, range.1));
  }

  /** A BOM index never carries a layer or a footprint. */
  lemma BomIndexHasNoLayer(cfg: ConfiguredGrid, key: string)
    requires cfg.textGrid.Some? && ExtractGrid(cfg, Bom).Success?
    requires key in ExtractGrid(cfg, Bom).value.entries
    ensures ExtractGrid(cfg, Bom).value.entries[key].layer == ""
    ensures ExtractGrid(cfg, Bom).value.entries[key].footprint == ""
  {
    var grid := cfg.textGrid.value;
    var cols := ResolveColumns(cfg, grid, Bom).value;
    var range := RowRange(cfg, grid, Bom).value;
    var i := ExtractRowsEntry(grid, cols, Bom, range.0, range.1, key);
    RowReadsPart(grid, cols, Bom, range.0, range.1, i);
    ReadRowShape(grid, cols, Bom, range.0 + i);
  }

  /**
   * Without a layer column (always the case without column headers, see
   * `ResolveColumns`) a PnP record's layer is the last cell of the data row
   * it comes from: data row `first + i`, where row read `i` is the last one
   * listing the key.
   */
  lemma HeaderlessPnpLayerIsLastCell(grid: Grid, cols: Columns, first: int, last: int, key: string) returns (i: int)
    requires cols.layer < 0
    requires ExtractRows(grid, cols, Pnp, first, last).Success?
    requires key in ExtractRows(grid, cols, Pnp, first, last).value.entries
    ensures LastRowWith(RowReads(grid, cols, Pnp, first, last), |RowReads(grid, cols, Pnp, first, last)|, i, key)
    ensures RowCells(grid, first + i).Success?
    ensures var cells := RowCells(grid, first + i).value;
      |cells| > 0 && ExtractRows(grid, cols, Pnp, first, last).value.entries[key].layer == cells[|cells| - 1]
  {
    i := ExtractRowsEntry(grid, cols, Pnp, first, last, key);
    RowReadsPart(grid, cols, Pnp, first, last, i);
    ReadRowShape(grid, cols, Pnp, first + i);
  }
}
