/**
  ConvertBuilder of the convert_grid_to_sparse tool: a per-cell builder that
  turns a grid spreadsheet (labels in the first ten rows and the first
  column) into one sparse row per present value cell, of the form
  Filename, X, Y, Value, written to a shared csv_writer.

  The writer is modelled by the calls it receives, as CsvBase events; a
  grid is the cells the parser hands the builder, row by row.
*/
module ConvertGrid {
  import opened CsvBase

  /** The first grid row and column that hold values, one-based as the builder counts them. */
  const FirstRow: nat := 11
  const FirstCol: nat := 2

  // ---------------------------------------------------------------------
  // lexical_cast<string> of a size_t

  function DigitChar(d: nat): char
    requires d < 10
  {
    ('0' as int + d) as char
  }

  predicate IsDigit(ch: char)
  {
    '0' <= ch <= '9'
  }

  predicate AllDigits(s: string)
  {
    forall i :: 0 <= i < |s| ==> IsDigit(s[i])
  }

  /** The decimal spelling of n: its digits, most significant first, with no leading zero. */
  function Decimal(n: nat): string
  {
    if n < 10 then [DigitChar(n)] else Decimal(n / 10) + [DigitChar(n % 10)]
  }

  /** The value of a string of decimal digits. */
  function ParseDecimal(s: string): nat
    requires AllDigits(s)
  {
    if s == [] then 0 else 10 * ParseDecimal(s[..|s| - 1]) + ((s[|s| - 1] as int - '0' as int) as nat)
  }

  lemma DigitCharValue(d: nat)
    requires d < 10
    ensures IsDigit(DigitChar(d)) && DigitChar(d) as int - '0' as int == d
  {
  }

  /** The spelling is non-empty, made of digits, starts with a digit other than 0 unless n is 0, and reads back as n. */
  lemma {:induction false} DecimalRoundTrip(n: nat)
    ensures var s := Decimal(n);
      && s != [] && AllDigits(s) && (s[0] == '0' <==> n == 0)
      && ParseDecimal(s) == n
  {
    DigitCharValue(n % 10);
    if n >= 10 {
      DecimalRoundTrip(n / 10);
      var s := Decimal(n);
      assert s[..|s| - 1] == Decimal(n / 10);
      assert s[0] == Decimal(n / 10)[0];
    } else {
      DigitCharValue(n);
    }
  }

  /** Different numbers have different spellings. */
  lemma DecimalInjective(a: nat, b: nat)
    ensures Decimal(a) == Decimal(b) <==> a == b
  {
    DecimalRoundTrip(a);
    DecimalRoundTrip(b);
  }

  // ---------------------------------------------------------------------
  // The builder

  /** The sparse row written for the value v found at value column x and value row y (both from 1). */
  function Entry(filename: string, x: nat, y: nat, v: string): seq<Cell>
  {
    [Some(filename), Some(Decimal(x)), Some(Decimal(y)), Some(v)]
  }

  /** The builder's counters with the calls its writer has received so far. */
  datatype ConvertState = ConvertState(filename: string, col: nat, row: nat, out: seq<Event>)

  /** begin_row: back to the first column of the next row. */
  function BeginRowStep(s: ConvertState): ConvertState
  {
    s.(col := 1, row := s.row + 1)
  }

  /** end_row does nothing. */
  function EndRowStep(s: ConvertState): ConvertState
  {
    s
  }

  /** The writer calls for the sparse row of value v at the builder's place in the value area. */
  function SparseRow(s: ConvertState, v: string): seq<Event>
    requires s.col >= FirstCol && s.row >= FirstRow
  {
    RowEvents(Entry(s.filename, s.col - FirstCol + 1, s.row - FirstRow + 1, v))
  }

  /** cell(): a present cell in the value area becomes one sparse row; the column moves on either way. */
  function CellStep(s: ConvertState, c: Cell): ConvertState
  {
    var out := if s.col >= FirstCol && s.row >= FirstRow && c.Some? then s.out + SparseRow(s, c.value) else s.out;
    s.(col := s.col + 1, out := out)
  }

  /** The cells of one row fed to the builder in order. */
  function Feed(s: ConvertState, cells: seq<Cell>): ConvertState
    decreases |cells|
  {
    if cells == [] then s else Feed(CellStep(s, cells[0]), cells[1..])
  }

  /** The rows of a grid fed to the builder, each between begin_row and end_row. */
  function FeedRows(s: ConvertState, grid: seq<seq<Cell>>): ConvertState
    decreases |grid|
  {
    if grid == [] then s else FeedRows(EndRowStep(Feed(BeginRowStep(s), grid[0])), grid[1..])
  }

  class ConvertBuilder {
    var col: nat
    var row: nat
    const filename: string
    /** The calls received by the writer the builder shares with the rest of the program. */
    var out: seq<Event>

    function Snapshot(): ConvertState
      reads this
    {
      ConvertState(filename, col, row, out)
    }

    /** A builder for one file, over a writer that has already received out. */
    constructor (filename: string, out: seq<Event>)
      ensures Snapshot() == ConvertState(filename, 0, 0, out)
    {
      this.filename := filename;
      col, row := 0, 0;
      this.out := out;
    }

    method BeginRow()
      modifies this
      ensures Snapshot() == BeginRowStep(old(Snapshot()))
    {
      col := 1;
      row := row + 1;
    }

    method EndRow()
      ensures Snapshot() == EndRowStep(old(Snapshot()))
    {
    }

    method Cell(c: Cell)
      modifies this
      ensures Snapshot() == CellStep(old(Snapshot()), c)
    {
      var next: nat := col + 1;
      var written := out;
      if col >= FirstCol && row >= FirstRow && c.Some? {
        written := written + SparseRow(Snapshot(), c.value);
      }
      out, col := written, next;
    }
  }

  // ---------------------------------------------------------------------
  // What a grid becomes

  /** The sparse row, if any, of cell c met at column col of row row (both from 1). */
  function Found(filename: string, col: nat, row: nat, c: Cell): seq<seq<Cell>>
  {
    if col >= FirstCol && row >= FirstRow && c.Some? then
      [Entry(filename, col - FirstCol + 1, row - FirstRow + 1, c.value)]
    else []
  }

  /** What cell() writes is the calls for the cell's sparse row, if any. */
  lemma CellStepFound(s: ConvertState, c: Cell)
    ensures CellStep(s, c).out == s.out + TableEvents(Found(s.filename, s.col, s.row, c))
  {
    var f := Found(s.filename, s.col, s.row, c);
    if f != [] {
      assert TableEvents(f) == RowEvents(f[0]) + TableEvents([]);
    } else {
      assert s.out + TableEvents(f) == s.out;
    }
  }

  /** The sparse rows of the cells of row r (from 1), the first of them at column col (from 1). */
  function RowEntries(filename: string, r: nat, cells: seq<Cell>, col: nat): seq<seq<Cell>>
    decreases |cells|
  {
    if cells == [] then [] else Found(filename, col, r, cells[0]) + RowEntries(filename, r, cells[1..], col + 1)
  }

  /** The sparse rows of a grid whose first row is row r0 (from 1), in row-major order. */
  function GridEntries(filename: string, grid: seq<seq<Cell>>, r0: nat): seq<seq<Cell>>
    decreases |grid|
  {
    if grid == [] then [] else RowEntries(filename, r0, grid[0], 1) + GridEntries(filename, grid[1..], r0 + 1)
  }

  /** Feeding a row writes exactly its sparse rows and leaves the row counter alone. */
  lemma {:induction false} FeedWrites(s: ConvertState, cells: seq<Cell>)
    ensures var s' := Feed(s, cells);
      && s'.out == s.out + TableEvents(RowEntries(s.filename, s.row, cells, s.col))
      && s'.col == s.col + |cells| && s'.row == s.row && s'.filename == s.filename
    decreases |cells|
  {
    if cells == [] {
      assert s.out + TableEvents([]) == s.out;
    } else {
      var s1 := CellStep(s, cells[0]);
      var here := Found(s.filename, s.col, s.row, cells[0]);
      var rest := RowEntries(s.filename, s.row, cells[1..], s.col + 1);
      calc {
        Feed(s, cells).out;
        Feed(s1, cells[1..]).out;
        { FeedWrites(s1, cells[1..]); }
        s1.out + TableEvents(rest);
        { CellStepFound(s, cells[0]); }
        s.out + TableEvents(here) + TableEvents(rest);
        { ConcatAssoc(s.out, TableEvents(here), TableEvents(rest)); TableEventsAppend(here, rest); }
        s.out + TableEvents(here + rest);
      }
      FeedWrites(s1, cells[1..]);
    }
  }

  /** Feeding a grid writes exactly its sparse rows, in row-major order. */
  lemma {:induction false} FeedRowsWrites(s: ConvertState, grid: seq<seq<Cell>>)
    ensures var s' := FeedRows(s, grid);
      && s'.out == s.out + TableEvents(GridEntries(s.filename, grid, s.row + 1))
      && s'.row == s.row + |grid| && s'.filename == s.filename
    decreases |grid|
  {
    if grid == [] {
      assert s.out + TableEvents([]) == s.out;
    } else {
      var s1 := BeginRowStep(s);
      var s2 := EndRowStep(Feed(s1, grid[0]));
      var here := RowEntries(s.filename, s.row + 1, grid[0], 1);
      var rest := GridEntries(s.filename, grid[1..], s.row + 2);
      assert s2.out == s.out + TableEvents(here) && s2.row == s.row + 1 && s2.filename == s.filename by {
        FeedWrites(s1, grid[0]);
      }
      calc {
        FeedRows(s, grid).out;
        FeedRows(s2, grid[1..]).out;
        { FeedRowsWrites(s2, grid[1..]); }
        s2.out + TableEvents(rest);
        s.out + TableEvents(here) + TableEvents(rest);
        { ConcatAssoc(s.out, TableEvents(here), TableEvents(rest)); TableEventsAppend(here, rest); }
        s.out + TableEvents(here + rest);
      }
      FeedRowsWrites(s2, grid[1..]);
    }
  }

  /** Cell k of a row whose first cell is at column col holds a present value, written as the sparse row e. */
  ghost predicate RowHas(filename: string, r: nat, cells: seq<Cell>, col: nat, e: seq<Cell>, k: int)
  {
    r >= FirstRow && 0 <= k < |cells| && col + k >= FirstCol && cells[k].Some?
    && e == Entry(filename, col + k - FirstCol + 1, r - FirstRow + 1, cells[k].value)
  }

  lemma RowHasTail(filename: string, r: nat, cells: seq<Cell>, col: nat, e: seq<Cell>, k: int)
    requires cells != [] && k >= 1
    ensures RowHas(filename, r, cells, col, e, k) <==> RowHas(filename, r, cells[1..], col + 1, e, k - 1)
  {
    if 0 <= k < |cells| {
      assert cells[1..][k - 1] == cells[k];
    }
  }

  /** Every sparse row of a row comes from one of its present value cells. */
  lemma {:induction false} RowEntriesSound(filename: string, r: nat, cells: seq<Cell>, col: nat, e: seq<Cell>)
    returns (k: nat)
    requires e in RowEntries(filename, r, cells, col)
    ensures RowHas(filename, r, cells, col, e, k)
    decreases |cells|
  {
    if e in Found(filename, col, r, cells[0]) {
      k := 0;
    } else {
      var k' := RowEntriesSound(filename, r, cells[1..], col + 1, e);
      RowHasTail(filename, r, cells, col, e, k' + 1);
      k := k' + 1;
    }
  }

  /** Every present value cell of a row gives one of its sparse rows. */
  lemma {:induction false} RowEntriesComplete(filename: string, r: nat, cells: seq<Cell>, col: nat, e: seq<Cell>, k: nat)
    requires RowHas(filename, r, cells, col, e, k)
    ensures e in RowEntries(filename, r, cells, col)
    decreases |cells|
  {
    if k > 0 {
      RowHasTail(filename, r, cells, col, e, k);
      RowEntriesComplete(filename, r, cells[1..], col + 1, e, k - 1);
    } else {
      assert e in Found(filename, col, r, cells[0]);
    }
  }

  /** Row i of a grid starting at row r0 holds e in its cell k. */
  ghost predicate GridHas(filename: string, grid: seq<seq<Cell>>, r0: nat, e: seq<Cell>, i: int, k: int)
  {
    0 <= i < |grid| && RowHas(filename, r0 + i, grid[i], 1, e, k)
  }

  lemma GridHasTail(filename: string, grid: seq<seq<Cell>>, r0: nat, e: seq<Cell>, i: int, k: int)
    requires grid != [] && i >= 1
    ensures GridHas(filename, grid, r0, e, i, k) <==> GridHas(filename, grid[1..], r0 + 1, e, i - 1, k)
  {
    if 0 <= i < |grid| {
      assert grid[1..][i - 1] == grid[i];
    }
  }

  lemma {:induction false} GridEntriesSound(filename: string, grid: seq<seq<Cell>>, r0: nat, e: seq<Cell>)
    returns (i: nat, k: nat)
    requires e in GridEntries(filename, grid, r0)
    ensures GridHas(filename, grid, r0, e, i, k)
    decreases |grid|
  {
    if e in RowEntries(filename, r0, grid[0], 1) {
      i := 0;
      k := RowEntriesSound(filename, r0, grid[0], 1, e);
    } else {
      var i' := 0;
      i', k := GridEntriesSound(filename, grid[1..], r0 + 1, e);
      GridHasTail(filename, grid, r0, e, i' + 1, k);
      i := i' + 1;
    }
  }

  lemma {:induction false} GridEntriesComplete(filename: string, grid: seq<seq<Cell>>, r0: nat, e: seq<Cell>, i: nat, k: nat)
    requires GridHas(filename, grid, r0, e, i, k)
    ensures e in GridEntries(filename, grid, r0)
    decreases |grid|
  {
    if i == 0 {
      RowEntriesComplete(filename, r0, grid[0], 1, e, k);
    } else {
      GridHasTail(filename, grid, r0, e, i, k);
      GridEntriesComplete(filename, grid[1..], r0 + 1, e, i - 1, k);
    }
  }

  /**
    A grid's sparse rows are exactly the Entry of every present cell in
    column 1 or later of row 10 or later (both from 0), at X = its column
    and Y = its row less 9.
  */
  lemma GridEntriesMember(filename: string, grid: seq<seq<Cell>>, e: seq<Cell>)
    ensures e in GridEntries(filename, grid, 1) <==>
      exists i, k :: 10 <= i < |grid| && 1 <= k < |grid[i]| && grid[i][k].Some?
                     && e == Entry(filename, k, i - 9, grid[i][k].value)
  {
    if e in GridEntries(filename, grid, 1) {
      var i, k := GridEntriesSound(filename, grid, 1, e);
      assert 10 <= i < |grid| && 1 <= k < |grid[i]| && grid[i][k].Some? && e == Entry(filename, k, i - 9, grid[i][k].value);
    }
    if exists i, k :: 10 <= i < |grid| && 1 <= k < |grid[i]| && grid[i][k].Some?
                      && e == Entry(filename, k, i - 9, grid[i][k].value) {
      var i, k :| 10 <= i < |grid| && 1 <= k < |grid[i]| && grid[i][k].Some?
                  && e == Entry(filename, k, i - 9, grid[i][k].value);
      assert GridHas(filename, grid, 1, e, i, k);
      GridEntriesComplete(filename, grid, 1, e, i, k);
    }
  }

  /** An Entry's X and Y cells read back as the coordinates it was written for. */
  lemma EntryCoordinates(filename: string, x: nat, y: nat, v: string)
    ensures var e := Entry(filename, x, y, v);
      && AllDigits(e[1].value) && ParseDecimal(e[1].value) == x
      && AllDigits(e[2].value) && ParseDecimal(e[2].value) == y
  {
    DecimalRoundTrip(x);
    DecimalRoundTrip(y);
  }

  // ---------------------------------------------------------------------
  // The combined output

  /** The header row that main writes before any file. */
  function HeaderRow(): seq<Cell>
  {
    [Some("Filename"), Some("X"), Some("Y"), Some("Value")]
  }

  /** Each parsed input file in turn through a fresh builder over the shared writer. */
  function ConvertFiles(out: seq<Event>, files: seq<(string, seq<seq<Cell>>)>): seq<Event>
    decreases |files|
  {
    if files == [] then out
    else ConvertFiles(FeedRows(ConvertState(files[0].0, 0, 0, out), files[0].1).out, files[1..])
  }

  /** The sparse rows of all the files, file after file. */
  function AllEntries(files: seq<(string, seq<seq<Cell>>)>): seq<seq<Cell>>
    decreases |files|
  {
    if files == [] then [] else GridEntries(files[0].0, files[0].1, 1) + AllEntries(files[1..])
  }

  /** The combined file: the calls for the header row, then those for the sparse rows of every file. */
  function Combined(files: seq<(string, seq<seq<Cell>>)>): seq<Event>
  {
    ConvertFiles(RowEvents(HeaderRow()), files)
  }

  lemma {:induction false} ConvertFilesWrites(out: seq<Event>, files: seq<(string, seq<seq<Cell>>)>)
    ensures ConvertFiles(out, files) == out + TableEvents(AllEntries(files))
    decreases |files|
  {
    if files != [] {
      var s := ConvertState(files[0].0, 0, 0, out);
      FeedRowsWrites(s, files[0].1);
      ConvertFilesWrites(FeedRows(s, files[0].1).out, files[1..]);
      TableEventsAppend(GridEntries(files[0].0, files[0].1, 1), AllEntries(files[1..]));
    }
  }

  /** The combined output is one header row followed by the sparse rows of the files, in order. */
  lemma CombinedRows(files: seq<(string, seq<seq<Cell>>)>)
    ensures Combined(files) == TableEvents([HeaderRow()] + AllEntries(files))
  {
    ConvertFilesWrites(RowEvents(HeaderRow()), files);
    TableEventsCons([], HeaderRow(), AllEntries(files));
  }
}
