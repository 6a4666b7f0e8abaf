/**
  FilterBuilder of the filter tool (filter/filter.cpp): the per-row builder
  that matches a file's header row against the configured input headers,
  drops the rows the exclude rules reject and writes each remaining row,
  projected onto the configured output columns, to a csv_writer.

  A row reaches the builder as the texts of its cells. The writer is
  modelled by the calls it receives, as CsvBase events. The numeric
  FilterMin / FilterMax checks are not computed here: their outcome on a
  row, a parse_number error or a verdict, is a parameter of end_full_row.
*/
module FilterRows {
  import opened CsvBase
  import opened FilterConfig

  /** A configuration as FilterBuilder receives it: one that ensure_loaded accepted. */
  ghost predicate Ready(cfg: ConfigState)
  {
    Inv(cfg) && cfg.stage == End
  }

  /** A header map of the size a file with a header gives it. */
  ghost predicate Fits(cfg: ConfigState, m: seq<nat>)
  {
    Ready(cfg) && (cfg.filesHaveHeader ==> |m| == |cfg.inputHeaders|)
  }

  // ---------------------------------------------------------------------
  // The header row

  /** Each file header on its own line, as the error message lists them. */
  function HeaderLines(cells: seq<string>): string
  {
    if cells == [] then [] else cells[0] + "\n" + HeaderLines(cells[1..])
  }

  function MissingHeader(h: string, cells: seq<string>): string
  {
    "Could not find header '" + h + "' in file which has headers:\n" + HeaderLines(cells)
  }

  /**
    map_header_to_file: for each expected header in turn, the first file
    column holding it; the first expected header that is missing throws.
  */
  function HeaderMap(expected: seq<string>, cells: seq<string>): (r: Result<seq<nat>>)
    ensures r.Ok? ==> |r.value| == |expected|
    decreases |expected|
  {
    if expected == [] then Ok([])
    else
      match HeaderMap(expected[..|expected| - 1], cells)
      case Err(msg) => Err(msg)
      case Ok(m) =>
        match FirstIndex(cells, expected[|expected| - 1])
        case None => Err(MissingHeader(expected[|expected| - 1], cells))
        case Some(j) => Ok(m + [j])
  }

  /**
    The map succeeds exactly when every expected header is among the file's
    headers, and then sends each expected header to the first file column
    equal to it.
  */
  lemma {:induction false} HeaderMapMatches(expected: seq<string>, cells: seq<string>)
    ensures HeaderMap(expected, cells).Ok? <==> forall i :: 0 <= i < |expected| ==> expected[i] in cells
    ensures HeaderMap(expected, cells).Ok? ==>
      var m := HeaderMap(expected, cells).value;
      && |m| == |expected|
      && forall i :: 0 <= i < |expected| ==>
           m[i] < |cells| && cells[m[i]] == expected[i] && forall k :: 0 <= k < m[i] ==> cells[k] != expected[i]
    decreases |expected|
  {
    if expected != [] {
      var init := expected[..|expected| - 1];
      var h := expected[|expected| - 1];
      HeaderMapMatches(init, cells);
      assert forall i :: 0 <= i < |init| ==> init[i] == expected[i];
      if HeaderMap(expected, cells).Ok? {
        var m0 := HeaderMap(init, cells).value;
        var j := FirstIndex(cells, h).value;
        assert HeaderMap(expected, cells).value == m0 + [j];
      }
    }
  }

  /** Once a prefix of the expected headers fails, the whole match fails with its message. */
  lemma {:induction false} HeaderMapErrPrefix(expected: seq<string>, cells: seq<string>, k: nat)
    requires k <= |expected| && HeaderMap(expected[..k], cells).Err?
    ensures HeaderMap(expected, cells) == HeaderMap(expected[..k], cells)
    decreases |expected|
  {
    if k < |expected| {
      var init := expected[..|expected| - 1];
      assert init[..k] == expected[..k];
      HeaderMapErrPrefix(init, cells, k);
    } else {
      assert expected[..k] == expected;
    }
  }

  /** The inner loop of the header match: the first matching column, or the column count. */
  method FindHeader(h: string, cells: seq<string>) returns (j: nat)
    ensures match FirstIndex(cells, h)
      case Some(k) => j == k
      case None => j == |cells|
  {
    j := 0;
    while j != |cells| && h != cells[j]
      invariant j <= |cells| && forall k :: 0 <= k < j ==> cells[k] != h
    {
      j := j + 1;
    }
  }

  /** The header-matching loops of end_full_row. */
  method MatchHeaders(expected: seq<string>, cells: seq<string>) returns (r: Result<seq<nat>>)
    ensures r == HeaderMap(expected, cells)
  {
    var m: seq<nat> := seq(|expected|, _ => 0);
    var i := 0;
    while i != |expected|
      invariant i <= |expected| && |m| == |expected|
      invariant HeaderMap(expected[..i], cells) == Ok(m[..i])
    {
      var j := FindHeader(expected[i], cells);
      assert expected[..i + 1][..i] == expected[..i];
      if j == |cells| {
        HeaderMapErrPrefix(expected, cells, i + 1);
        return Err(MissingHeader(expected[i], cells));
      }
      m := m[i := j];
      assert m[..i + 1] == m[..i] + [j];
      i := i + 1;
    }
    assert expected[..i] == expected && m[..i] == m;
    return Ok(m);
  }

  // ---------------------------------------------------------------------
  // The exclude rules

  /** The file column a configured column stands for: through the header map for files with a header. */
  function FileColumn(cfg: ConfigState, m: seq<nat>, col: nat): nat
    requires cfg.filesHaveHeader ==> col < |m|
  {
    if cfg.filesHaveHeader then m[col] else col
  }

  /** Every Exclude Blank column is present in the row and not empty. */
  predicate KeepsBlanks(cfg: ConfigState, m: seq<nat>, row: seq<string>)
    requires Fits(cfg, m)
  {
    forall i :: 0 <= i < |cfg.excludeBlanks| ==>
      FileColumn(cfg, m, cfg.excludeBlanks[i]) < |row| && row[FileColumn(cfg, m, cfg.excludeBlanks[i])] != []
  }

  /** No Exclude Text column that the row has holds the excluded text (compared by str_equal). */
  predicate KeepsTexts(cfg: ConfigState, m: seq<nat>, row: seq<string>)
    requires Fits(cfg, m)
  {
    forall i :: 0 <= i < |cfg.excludeTexts| ==>
      FileColumn(cfg, m, cfg.excludeTexts[i].0) < |row| ==>
        !StrEqual(row[FileColumn(cfg, m, cfg.excludeTexts[i].0)], cfg.excludeTexts[i].1)
  }

  /** The exclude-blank loop, which stops at the first failing column. */
  method BlanksPass(cfg: ConfigState, m: seq<nat>, row: seq<string>) returns (pass: bool)
    requires Fits(cfg, m)
    ensures pass == KeepsBlanks(cfg, m, row)
  {
    pass := true;
    var i := 0;
    while pass && i != |cfg.excludeBlanks|
      invariant i <= |cfg.excludeBlanks|
      invariant pass ==> forall k :: 0 <= k < i ==>
        FileColumn(cfg, m, cfg.excludeBlanks[k]) < |row| && row[FileColumn(cfg, m, cfg.excludeBlanks[k])] != []
      invariant !pass ==> !KeepsBlanks(cfg, m, row)
    {
      var col := cfg.excludeBlanks[i];
      if cfg.filesHaveHeader {
        col := m[col];
      }
      pass := col < |row| && |row[col]| > 0;
      i := i + 1;
    }
  }

  /** The exclude-text loop: a column the row lacks does not exclude it. */
  method TextsPass(cfg: ConfigState, m: seq<nat>, row: seq<string>) returns (pass: bool)
    requires Fits(cfg, m)
    ensures pass == KeepsTexts(cfg, m, row)
  {
    pass := true;
    var i := 0;
    while pass && i != |cfg.excludeTexts|
      invariant i <= |cfg.excludeTexts|
      invariant pass ==> forall k :: 0 <= k < i ==>
        FileColumn(cfg, m, cfg.excludeTexts[k].0) < |row| ==>
          !StrEqual(row[FileColumn(cfg, m, cfg.excludeTexts[k].0)], cfg.excludeTexts[k].1)
      invariant !pass ==> !KeepsTexts(cfg, m, row)
    {
      var col := cfg.excludeTexts[i].0;
      if cfg.filesHaveHeader {
        col := m[col];
      }
      if col < |row| {
        pass := !StrEqual(row[col], cfg.excludeTexts[i].1);
      }
      i := i + 1;
    }
  }

  /** For exclude texts without NUL, a present column excludes the row exactly when it equals the text. */
  lemma KeepsTextsExact(cfg: ConfigState, m: seq<nat>, row: seq<string>)
    requires Fits(cfg, m)
    requires forall i :: 0 <= i < |cfg.excludeTexts| ==> NoNul(cfg.excludeTexts[i].1)
    ensures KeepsTexts(cfg, m, row) <==> forall i :: 0 <= i < |cfg.excludeTexts| ==>
      FileColumn(cfg, m, cfg.excludeTexts[i].0) < |row| ==>
        row[FileColumn(cfg, m, cfg.excludeTexts[i].0)] != cfg.excludeTexts[i].1
  {
    forall i | 0 <= i < |cfg.excludeTexts| && FileColumn(cfg, m, cfg.excludeTexts[i].0) < |row|
      ensures StrEqual(row[FileColumn(cfg, m, cfg.excludeTexts[i].0)], cfg.excludeTexts[i].1)
              <==> row[FileColumn(cfg, m, cfg.excludeTexts[i].0)] == cfg.excludeTexts[i].1
    {
      var t := cfg.excludeTexts[i].1;
      var c := row[FileColumn(cfg, m, cfg.excludeTexts[i].0)];
      StrEqualExact(t, c);
      if StrEqual(c, t) {
        StrEqualSym(c, t);
      }
      if c == t {
        StrEqualRefl(c);
      }
    }
  }

  lemma {:induction false} StrncmpSym(a: string, b: string, n: nat)
    requires n <= |a| && n <= |b|
    ensures StrncmpZero(a, b, n) ==> StrncmpZero(b, a, n)
    decreases n
  {
    if n > 0 {
      StrncmpSym(a[1..], b[1..], n - 1);
    }
  }

  lemma StrEqualSym(a: string, b: string)
    ensures StrEqual(a, b) ==> StrEqual(b, a)
  {
    if |a| == |b| {
      StrncmpSym(a, b, |a|);
    }
  }

  // ---------------------------------------------------------------------
  // The output row

  /** Every Column Order entry that goes through the map has a place in it. */
  ghost predicate OrderFits(cfg: ConfigState, m: seq<nat>, order: seq<nat>)
  {
    forall k :: 0 <= k < |order| ==> cfg.filesHaveHeader && order[k] > 0 ==> order[k] - 1 < |m|
  }

  lemma ReadyOrderFits(cfg: ConfigState, m: seq<nat>)
    requires Fits(cfg, m)
    ensures OrderFits(cfg, m, cfg.outputOrder)
  {
  }

  /**
    The cell written for one output_order_1 entry j: NULL for 0 (blank) and
    for a column past the end of the row, else that column of the row, the
    column being found through the header map for files with a header.
  */
  function Pick(cfg: ConfigState, m: seq<nat>, row: seq<string>, j: nat): Cell
    requires cfg.filesHaveHeader && j > 0 ==> j - 1 < |m|
  {
    var j' := if j > 0 && cfg.filesHaveHeader then m[j - 1] + 1 else j;
    if j' > 0 && j' - 1 < |row| then Some(row[j' - 1]) else None
  }

  function Picks(cfg: ConfigState, m: seq<nat>, row: seq<string>, order: seq<nat>): (r: seq<Cell>)
    requires OrderFits(cfg, m, order)
    ensures |r| == |order|
    decreases |order|
  {
    if order == [] then []
    else Picks(cfg, m, row, order[..|order| - 1]) + [Pick(cfg, m, row, order[|order| - 1])]
  }

  lemma {:induction false} PicksAt(cfg: ConfigState, m: seq<nat>, row: seq<string>, order: seq<nat>, k: nat)
    requires OrderFits(cfg, m, order) && k < |order|
    ensures Picks(cfg, m, row, order)[k] == Pick(cfg, m, row, order[k])
    decreases |order|
  {
    if k < |order| - 1 {
      PicksAt(cfg, m, row, order[..|order| - 1], k);
    }
  }

  function Nulls(n: nat): (r: seq<Cell>)
    ensures |r| == n
  {
    if n == 0 then [] else Nulls(n - 1) + [None]
  }

  lemma {:induction false} NullsAt(n: nat, k: nat)
    requires k < n
    ensures Nulls(n)[k] == None
  {
    if k < n - 1 {
      NullsAt(n - 1, k);
    }
  }

  /** The optional file-name cell that opens every written row. */
  function Lead(cfg: ConfigState, filename: string): seq<Cell>
  {
    if cfg.addFilename then [Some(filename)] else []
  }

  /** The cells of a written row: file name, one per Column Order entry, then NULLs up to the Output Header width. */
  function OutputRow(cfg: ConfigState, m: seq<nat>, filename: string, row: seq<string>): seq<Cell>
    requires Fits(cfg, m)
  {
    ReadyOrderFits(cfg, m);
    var n := |cfg.outputOrder|;
    Lead(cfg, filename) + Picks(cfg, m, row, cfg.outputOrder)
      + Nulls(if |cfg.outputHeader| > n then |cfg.outputHeader| - n else 0)
  }

  lemma OutputRowParts(cfg: ConfigState, m: seq<nat>, filename: string, row: seq<string>)
    requires Fits(cfg, m)
    ensures OrderFits(cfg, m, cfg.outputOrder)
    ensures OutputRow(cfg, m, filename, row) == Lead(cfg, filename) + Picks(cfg, m, row, cfg.outputOrder)
      + Nulls(if |cfg.outputHeader| > |cfg.outputOrder| then |cfg.outputHeader| - |cfg.outputOrder| else 0)
  {
  }

  /**
    The shape of a written row: the file name first when configured, then
    the whole width of the larger of Column Order and Output Header, each
    entry's cell in its place and NULLs after the entries.
  */
  lemma OutputRowShape(cfg: ConfigState, m: seq<nat>, filename: string, row: seq<string>)
    requires Fits(cfg, m)
    ensures var out := OutputRow(cfg, m, filename, row);
      var lead := if cfg.addFilename then 1 else 0;
      var o := cfg.outputOrder;
      && |out| == lead + (if |cfg.outputHeader| > |o| then |cfg.outputHeader| else |o|)
      && (cfg.addFilename ==> out[0] == Some(filename))
      && (forall k :: 0 <= k < |o| ==> out[lead + k] == Pick(cfg, m, row, o[k]))
      && (forall k :: lead + |o| <= k < |out| ==> out[k] == None)
  {
    ReadyOrderFits(cfg, m);
    var out := OutputRow(cfg, m, filename, row);
    var lead := Lead(cfg, filename);
    var o := cfg.outputOrder;
    var ps := Picks(cfg, m, row, o);
    var nn := if |cfg.outputHeader| > |o| then |cfg.outputHeader| - |o| else 0;
    assert out == lead + ps + Nulls(nn);
    forall k | 0 <= k < |o|
      ensures out[|lead| + k] == Pick(cfg, m, row, o[k])
    {
      PicksAt(cfg, m, row, o, k);
    }
    forall k | |lead| + |o| <= k < |out|
      ensures out[k] == None
    {
      NullsAt(nn, k - |lead| - |o|);
    }
  }

  /**
    With a file header, a Column Order entry naming input header j - 1
    writes the cell of the first file column whose header is that name,
    or NULL when the row is too short to have it.
  */
  lemma ProjectByName(cfg: ConfigState, header: seq<string>, row: seq<string>, j: nat)
    requires cfg.filesHaveHeader && HeaderMap(cfg.inputHeaders, header).Ok?
    requires 0 < j <= |cfg.inputHeaders|
    ensures var m := HeaderMap(cfg.inputHeaders, header).value;
      && m[j - 1] < |header| && header[m[j - 1]] == cfg.inputHeaders[j - 1]
      && Pick(cfg, m, row, j) == if m[j - 1] < |row| then Some(row[m[j - 1]]) else None
  {
    HeaderMapMatches(cfg.inputHeaders, header);
  }

  /** The cells of the Column Order loop, one per entry. */
  method PickCells(cfg: ConfigState, m: seq<nat>, row: seq<string>) returns (cells: seq<Cell>)
    requires OrderFits(cfg, m, cfg.outputOrder)
    ensures cells == Picks(cfg, m, row, cfg.outputOrder)
  {
    var order := cfg.outputOrder;
    cells := [];
    var i := 0;
    while i != |order|
      invariant i <= |order|
      invariant cells == Picks(cfg, m, row, order[..i])
    {
      var j := order[i];
      if j > 0 && cfg.filesHaveHeader {
        j := m[j - 1] + 1;
      }
      var c: Cell := if j > 0 && j - 1 < |row| then Some(row[j - 1]) else None;
      assert c == Pick(cfg, m, row, order[i]);
      assert order[..i + 1][..i] == order[..i];
      cells := cells + [c];
      i := i + 1;
    }
    assert order[..i] == order;
  }

  /** The NULL cells that pad a row from column from out to width. */
  method NullCells(from: nat, width: nat) returns (cells: seq<Cell>)
    ensures cells == Nulls(if width > from then width - from else 0)
  {
    cells := [];
    var i := from;
    while i < width
      invariant from <= i && (i > from ==> i <= width)
      invariant cells == Nulls(i - from)
    {
      cells := cells + [None];
      i := i + 1;
    }
  }

  /** The begin_row, cell and end_row calls for one passing row, in order. */
  method RowCalls(cfg: ConfigState, m: seq<nat>, filename: string, row: seq<string>) returns (calls: seq<Event>)
    requires Fits(cfg, m)
    ensures calls == RowEvents(OutputRow(cfg, m, filename, row))
  {
    OutputRowParts(cfg, m, filename, row);
    var lead: seq<Cell> := if cfg.addFilename then [Some(filename)] else [];
    var picks := PickCells(cfg, m, row);
    var pad := NullCells(|cfg.outputOrder|, |cfg.outputHeader|);
    calls := RowEvents(lead + picks + pad);
  }

  // ---------------------------------------------------------------------
  // end_full_row

  datatype FilterState = FilterState(firstRow: bool, headerMap: seq<nat>, out: seq<Event>)

  /** What the builder holds between rows: the map is in place once the header row is read. */
  ghost predicate Consistent(cfg: ConfigState, s: FilterState)
  {
    Ready(cfg) && (cfg.filesHaveHeader && !s.firstRow ==> |s.headerMap| == |cfg.inputHeaders|)
  }

  /**
    end_full_row: the first row of a file with a header builds the map and
    writes nothing; later, an empty row is ignored, a row the blank and text
    rules reject is dropped, and a row they keep goes on to the numeric
    checks. Their outcome is `numeric`: the message parse_number throws, or
    whether every Filter Min and Filter Max bound holds. A row that passes
    them too is written as OutputRow.
  */
  function RowStep(cfg: ConfigState, filename: string, s: FilterState, row: seq<string>, numeric: Result<bool>): Result<FilterState>
    requires Consistent(cfg, s)
  {
    if s.firstRow && cfg.filesHaveHeader then
      match HeaderMap(cfg.inputHeaders, row)
      case Err(msg) => Err(msg)
      case Ok(m) => Ok(FilterState(false, m, s.out))
    else if row == [] then Ok(s.(firstRow := false))
    else if KeepsBlanks(cfg, s.headerMap, row) && KeepsTexts(cfg, s.headerMap, row) then
      match numeric
      case Err(msg) => Err(msg)
      case Ok(true) => Ok(FilterState(false, s.headerMap, s.out + RowEvents(OutputRow(cfg, s.headerMap, filename, row))))
      case Ok(false) => Ok(s.(firstRow := false))
    else Ok(s.(firstRow := false))
  }

  /**
    Each row keeps the builder consistent and writes either nothing or
    exactly one complete row, the one the rules let through. A throw comes
    either from the header row, for a missing expected header, or from the
    numeric checks of a non-empty data row that the blank and text rules keep.
  */
  lemma RowStepFacts(cfg: ConfigState, filename: string, s: FilterState, row: seq<string>, numeric: Result<bool>)
    requires Consistent(cfg, s)
    ensures match RowStep(cfg, filename, s, row, numeric)
      case Err(msg) =>
        || (s.firstRow && cfg.filesHaveHeader && exists i :: 0 <= i < |cfg.inputHeaders| && cfg.inputHeaders[i] !in row)
        || (!(s.firstRow && cfg.filesHaveHeader) && row != []
            && KeepsBlanks(cfg, s.headerMap, row) && KeepsTexts(cfg, s.headerMap, row)
            && numeric == Err(msg))
      case Ok(s') =>
        && Consistent(cfg, s') && !s'.firstRow
        && (s'.out == s.out || (!(s.firstRow && cfg.filesHaveHeader) && row != [] && numeric == Ok(true)
              && KeepsBlanks(cfg, s.headerMap, row) && KeepsTexts(cfg, s.headerMap, row)
              && s'.out == s.out + RowEvents(OutputRow(cfg, s.headerMap, filename, row))))
        && (s.firstRow && cfg.filesHaveHeader ==> s'.out == s.out)
        && (row == [] ==> s'.out == s.out)
  {
    HeaderMapMatches(cfg.inputHeaders, row);
  }

  /** The builder as a class: the writer calls accumulate in out. */
  class FilterBuilder {
    const config: ConfigState
    const filename: string
    var firstRow: bool
    var mapHeaderToFile: seq<nat>
    /** The calls made on the csv_writer, in order. */
    var out: seq<Event>

    function Snapshot(): FilterState
      reads this
    {
      FilterState(firstRow, mapHeaderToFile, out)
    }

    ghost predicate Valid()
      reads this
    {
      Consistent(config, Snapshot())
    }

    constructor (config: ConfigState, filename: string)
      requires Ready(config)
      ensures this.config == config && this.filename == filename
      ensures Snapshot() == FilterState(true, [], []) && Valid()
    {
      this.config, this.filename := config, filename;
      firstRow, mapHeaderToFile, out := true, [], [];
    }

    /** On a throw the model leaves the builder as it was; the source abandons it. */
    method EndFullRow(row: seq<string>, numeric: Result<bool>) returns (err: Option<string>)
      requires Valid()
      modifies this
      ensures Valid()
      ensures match RowStep(config, filename, old(Snapshot()), row, numeric)
        case Ok(s) => err == None && Snapshot() == s
        case Err(m) => err == Some(m) && Snapshot() == old(Snapshot())
    {
      err := None;
      if firstRow && config.filesHaveHeader {
        var r := MatchHeaders(config.inputHeaders, row);
        match r {
          case Err(m) =>
            return Some(m);
          case Ok(m) =>
            HeaderMapMatches(config.inputHeaders, row);
            mapHeaderToFile := m;
        }
      } else if |row| > 0 {
        var pass := BlanksPass(config, mapHeaderToFile, row);
        if pass {
          pass := TextsPass(config, mapHeaderToFile, row);
        }
        if pass {
          match numeric {
            case Err(m) =>
              return Some(m);
            case Ok(ok) =>
              if ok {
                WriteRow(row);
              }
          }
        }
      }
      firstRow := false;
    }

    /** The writer calls for one passing row. */
    method WriteRow(row: seq<string>)
      requires Fits(config, mapHeaderToFile)
      modifies this
      ensures firstRow == old(firstRow) && mapHeaderToFile == old(mapHeaderToFile)
      ensures out == old(out) + RowEvents(OutputRow(config, mapHeaderToFile, filename, row))
    {
      var calls := RowCalls(config, mapHeaderToFile, filename, row);
      out := out + calls;
    }
  }
}
