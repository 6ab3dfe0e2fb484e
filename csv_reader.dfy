/**
 * Post-processing of `read_csv`: the rows the CSV tokenizer produced are
 * filtered, their cells stripped, and every row padded to the widest one.
 */
module CsvReader {
  import opened PyStr
  import opened TextGrid

  /** A row is kept when it has a first cell and that cell (before stripping) is not empty. */
  predicate KeepRow(row: seq<string>) {
    |row| > 0 && row[0] != ""
  }

  /** The kept rows, in their original order. */
  function KeptRows(raw: seq<seq<string>>): (r: seq<seq<string>>)
    ensures |r| <= |raw|
    ensures forall k :: 0 <= k < |r| ==> KeepRow(r[k])
  {
    if |raw| == 0 then []
    else KeptRows(raw[..|raw| - 1]) + (if KeepRow(raw[|raw| - 1]) then [raw[|raw| - 1]] else [])
  }

  /** Every cell of a row, stripped. */
  function StripCells(row: seq<string>): seq<string> {
    seq(|row|, i requires 0 <= i < |row| => Strip(row[i]))
  }

  /** The length of the longest row, 0 when there is none. */
  function MaxWidth(rows: seq<seq<string>>): (w: nat)
    ensures forall k :: 0 <= k < |rows| ==> |rows[k]| <= w
    ensures |rows| == 0 ==> w == 0
    ensures |rows| > 0 ==> exists k :: 0 <= k < |rows| && |rows[k]| == w
  {
    if |rows| == 0 then 0
    else
      var w := MaxWidth(rows[..|rows| - 1]);
      var last := |rows[|rows| - 1]|;
      if last > w then last else w
  }

  /** `row` extended with empty cells up to `n` cells; never shortened. */
  function PadRow(row: seq<string>, n: int): seq<string> {
    if n <= |row| then row else row + seq(n - |row|, _ => "")
  }

  lemma PadRowShape(row: seq<string>, n: int)
    ensures |PadRow(row, n)| == if n <= |row| then |row| else n
    ensures PadRow(row, n)[..|row|] == row
    ensures forall k :: |row| <= k < |PadRow(row, n)| ==> PadRow(row, n)[k] == ""
  {
  }

  /** Filtering distributes over concatenation, so kept rows keep their relative order. */
  lemma {:induction false} KeptRowsConcat(a: seq<seq<string>>, b: seq<seq<string>>)
    ensures KeptRows(a + b) == KeptRows(a) + KeptRows(b)
  {
    if |b| == 0 {
      assert a + b == a;
    } else {
      var b' := b[..|b| - 1];
      KeptRowsConcat(a, b');
      assert (a + b)[..|a + b| - 1] == a + b';
    }
  }

  /** A row is kept exactly when it is in the input and passes the filter. */
  lemma {:induction false} KeptRowsMembers(raw: seq<seq<string>>, row: seq<string>)
    ensures row in KeptRows(raw) <==> row in raw && KeepRow(row)
  {
    if |raw| > 0 {
      var init := raw[..|raw| - 1];
      KeptRowsMembers(init, row);
      assert raw == init + [raw[|raw| - 1]];
    }
  }

  /** The inner cell loop of `read_csv`: strip every cell of a kept row. */
  method StripRow(row: seq<string>) returns (cells: seq<string>)
    ensures cells == StripCells(row)
  {
    cells := [];
    for c := 0 to |row|
      invariant |cells| == c
      invariant forall k :: 0 <= k < c ==> cells[k] == Strip(row[k])
    {
      cells := cells + [Strip(row[c])];
    }
  }

  /** The `while cols_to_add > 0` loop: append empty cells until the row has `ncols` cells. */
  method PadRowLoop(row: seq<string>, ncols: int) returns (padded: seq<string>)
    ensures padded == PadRow(row, ncols)
  {
    padded := row;
    var colsToAdd := ncols - |row|;
    while colsToAdd > 0
      invariant padded == PadRow(row, ncols - colsToAdd)
      invariant colsToAdd <= ncols - |row|
      invariant colsToAdd < 0 ==> colsToAdd == ncols - |row|
    {
      padded := padded + [""];
      colsToAdd := colsToAdd - 1;
    }
  }

  /** One more raw row: it is appended to the kept rows exactly when it passes the filter. */
  lemma KeptRowsStep(raw: seq<seq<string>>, r: int)
    requires 0 <= r < |raw|
    ensures KeepRow(raw[r]) ==> KeptRows(raw[..r + 1]) == KeptRows(raw[..r]) + [raw[r]]
    ensures !KeepRow(raw[r]) ==> KeptRows(raw[..r + 1]) == KeptRows(raw[..r])
  {
    assert raw[..r + 1][..r] == raw[..r];
    assert KeptRows(raw[..r]) + [] == KeptRows(raw[..r]);
  }

  /** One more row: the width grows to that row's length when it is wider. */
  lemma MaxWidthStep(rows: seq<seq<string>>, row: seq<string>)
    ensures MaxWidth(rows + [row]) == if |row| > MaxWidth(rows) then |row| else MaxWidth(rows)
  {
    assert (rows + [row])[..|rows|] == rows;
  }

  /** The row loop of `read_csv`: keeps rows that pass the filter, strips them, and tracks the widest. */
  method KeepAndStrip(raw: seq<seq<string>>) returns (rows: seq<seq<string>>, maxCols: nat)
    ensures |rows| == |KeptRows(raw)|
    ensures forall k :: 0 <= k < |rows| ==> rows[k] == StripCells(KeptRows(raw)[k])
    ensures maxCols == MaxWidth(KeptRows(raw))
  {
    rows := [];
    maxCols := 0;
    ghost var kept: seq<seq<string>> := [];
    for r := 0 to |raw|
      invariant kept == KeptRows(raw[..r])
      invariant |rows| == |kept|
      invariant forall k :: 0 <= k < |rows| ==> rows[k] == StripCells(kept[k])
      invariant maxCols == MaxWidth(kept)
    {
      KeptRowsStep(raw, r);
      var row := raw[r];
      if |row| > 0 && row[0] != "" {
        var cells := StripRow(row);
        MaxWidthStep(kept, row);
        if |cells| > maxCols {
          maxCols := |cells|;
        }
        rows := rows + [cells];
        kept := kept + [row];
      }
    }
    assert raw[..|raw|] == raw;
  }

  /** The padding loop of `read_csv`: every row is padded with empty cells to `ncols` cells. */
  method PadRows(stripped: seq<seq<string>>, ncols: int) returns (rows: seq<seq<string>>)
    ensures |rows| == |stripped|
    ensures forall k :: 0 <= k < |rows| ==> rows[k] == PadRow(stripped[k], ncols)
  {
    rows := stripped;
    for i := 0 to |rows|
      invariant |rows| == |stripped|
      invariant forall k :: 0 <= k < i ==> rows[k] == PadRow(stripped[k], ncols)
      invariant forall k :: i <= k < |rows| ==> rows[k] == stripped[k]
    {
      var padded := PadRowLoop(rows[i], ncols);
      rows := rows[i := padded];
    }
  }

  /**
   * `read_csv` after tokenizing: keep, strip, measure, then pad each row in
   * place.
   */
  method ReadCsv(raw: seq<seq<string>>) returns (tg: Grid)
    ensures |tg.rows| == tg.nrows == |KeptRows(raw)|
    ensures tg.ncols == MaxWidth(KeptRows(raw))
    ensures forall i :: 0 <= i < |tg.rows| ==> |tg.rows[i]| == tg.ncols
    ensures forall i :: 0 <= i < |tg.rows| ==>
              tg.rows[i] == PadRow(StripCells(KeptRows(raw)[i]), tg.ncols)
  {
    var stripped, maxCols := KeepAndStrip(raw);
    var rows := PadRows(stripped, maxCols);
    forall i | 0 <= i < |rows|
      ensures |rows[i]| == maxCols
    {
      PadRowShape(stripped[i], maxCols);
    }
    tg := Grid(rows, |rows|, maxCols);
  }
}
