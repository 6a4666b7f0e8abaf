/**
  The current csv_writer of include/cppcsv/csvwriter.hpp: a builder sink that
  turns begin_row / cell / end_row calls into CSV text, holding back the
  separators of blank cells until a non-empty cell follows, padding short rows
  to min_columns and quoting per need_quote; and the add_dos_cr_out decorator
  that turns bare LF into CRLF.

  The Output functor is modelled as the text it has received so far.
*/
module Writer {
  import opened CsvBase

  /** The settings fixed at construction. */
  datatype Config = Config(qchar: char, sep: char, smartQuote: bool, minColumns: nat, quoteQuotes: bool)

  /** The writer's counters and the output written so far. */
  datatype State = State(col: nat, pendingSeps: nat, rowIsOpen: bool, currentRow: nat, out: string)

  predicate IsBlank(c: char) { c == ' ' || c == '\t' }

  /** Characters that force quoting wherever they appear in a cell. */
  predicate Special(cfg: Config, c: char)
  {
    (cfg.quoteQuotes && c == cfg.qchar) || c == cfg.sep || c == '\n'
  }

  /** The scanning loop at the end of need_quote. */
  function ScanNeedsQuote(cfg: Config, s: string): bool
  {
    s != [] && (Special(cfg, s[0]) || ScanNeedsQuote(cfg, s[1..]))
  }

  lemma {:induction false} ScanNeedsQuoteExists(cfg: Config, s: string)
    ensures ScanNeedsQuote(cfg, s) <==> exists i :: 0 <= i < |s| && Special(cfg, s[i])
  {
    if s != [] {
      ScanNeedsQuoteExists(cfg, s[1..]);
      if ScanNeedsQuote(cfg, s[1..]) {
        var i :| 0 <= i < |s[1..]| && Special(cfg, s[1..][i]);
        assert Special(cfg, s[i + 1]);
      }
      if exists i :: 0 <= i < |s| && Special(cfg, s[i]) {
        var i :| 0 <= i < |s| && Special(cfg, s[i]);
        if i > 0 {
          assert Special(cfg, s[1..][i - 1]);
        }
      }
    }
  }

  /** need_quote: whether a non-empty cell has to be quoted to be read back. */
  function NeedQuote(cfg: Config, s: string): bool
    requires cfg.qchar != '\0'
  {
    if |s| > 0 && (IsBlank(s[0]) || IsBlank(s[|s| - 1])) then true
    else if |s| > 0 && s[0] == cfg.qchar then true
    else ScanNeedsQuote(cfg, s)
  }

  /** The cases in which need_quote answers true, and no others. */
  lemma NeedQuoteCases(cfg: Config, s: string)
    requires cfg.qchar != '\0'
    ensures NeedQuote(cfg, s) <==>
      (|s| > 0 && (IsBlank(s[0]) || IsBlank(s[|s| - 1]) || s[0] == cfg.qchar))
      || (exists i :: 0 <= i < |s| && Special(cfg, s[i]))
  {
    ScanNeedsQuoteExists(cfg, s);
  }

  /** How cell() writes a non-empty text: raw, or quoted with quotes doubled. */
  function Render(cfg: Config, s: string): string
  {
    if cfg.qchar == '\0' || (cfg.smartQuote && !NeedQuote(cfg, s)) then s
    else Quoted(cfg.qchar, s)
  }

  /** A rendered cell reads back as its text, and is raw only when quoting is off or not needed. */
  lemma RenderReadsBack(cfg: Config, s: string)
    ensures Render(cfg, s) == s || Render(cfg, s) == Quoted(cfg.qchar, s)
    ensures Render(cfg, s) != s ==> Unescape(cfg.qchar, Render(cfg, s)[1..|Render(cfg, s)| - 1]) == Some(s)
    ensures cfg.qchar != '\0' && !cfg.smartQuote ==> Render(cfg, s) == Quoted(cfg.qchar, s)
    ensures cfg.qchar != '\0' && cfg.smartQuote && Render(cfg, s) == s && s != [] ==>
      !IsBlank(s[0]) && !IsBlank(s[|s| - 1]) && s[0] != cfg.qchar
      && forall i :: 0 <= i < |s| ==> !Special(cfg, s[i])
  {
    var q := cfg.qchar;
    if Render(cfg, s) != s {
      var r := Quoted(q, s);
      assert r[1..|r| - 1] == Escape(q, s);
      UnescapeEscape(q, s);
    }
    if q != '\0' && cfg.smartQuote && Render(cfg, s) == s && s != [] {
      assert !NeedQuote(cfg, s) by {
        EscapeLength(q, s);
      }
      NeedQuoteCases(cfg, s);
    }
  }

  /** What cell() writes for a cell, separators aside: nothing for NULL or empty. */
  function CellText(cfg: Config, c: Cell): string
  {
    match c
    case None => []
    case Some(s) => if s == [] then [] else Render(cfg, s)
  }

  lemma CellTextEmpty(cfg: Config, c: Cell)
    ensures CellText(cfg, c) == [] <==> c.None? || c.value == []
  {
    if c.Some? && c.value != [] && Render(cfg, c.value) != c.value {
      EscapeLength(cfg.qchar, c.value);
    }
  }

  // ---------------------------------------------------------------------
  // The writer's operations as functions of its state

  function BeginRowStep(w: State): (r: State)
    requires !w.rowIsOpen
    ensures r.rowIsOpen && r.col == 0 && r.pendingSeps == 0 && r.out == w.out
    ensures r.currentRow == w.currentRow + 1
  {
    w.(rowIsOpen := true, col := 0, pendingSeps := 0, currentRow := w.currentRow + 1)
  }

  function CellStep(cfg: Config, w: State, c: Cell): (r: State)
    requires w.rowIsOpen && w.pendingSeps <= w.col
    ensures r.rowIsOpen && r.col == w.col + 1 && r.pendingSeps <= r.col
    ensures r.currentRow == w.currentRow
    ensures c.None? || c.value == [] ==> r.out == w.out
  {
    var pending := w.pendingSeps + (if w.col != 0 then 1 else 0);
    var w1 := w.(col := w.col + 1, pendingSeps := pending);
    match c
    case None => w1
    case Some(s) =>
      if s == [] then w1
      else w1.(pendingSeps := 0, out := w.out + Seps(cfg.sep, pending) + Render(cfg, s))
  }

  /** The number of separators end_row's padding loop writes, going from column c to m. */
  function PadCount(c: nat, m: nat): nat
  {
    if m <= c then 0 else m - c - (if c == 0 then 1 else 0)
  }

  function Max(a: nat, b: nat): nat { if a < b then b else a }

  function EndRowStep(cfg: Config, w: State, skipNewline: bool): (r: State)
    requires w.rowIsOpen && w.pendingSeps <= w.col
    ensures !r.rowIsOpen && r.currentRow == w.currentRow
    ensures r.col >= cfg.minColumns
  {
    var c := w.col - w.pendingSeps;
    w.(rowIsOpen := false, col := Max(c, cfg.minColumns),
       out := w.out + Seps(cfg.sep, PadCount(c, cfg.minColumns)) + (if skipNewline then [] else "\n"))
  }

  /** A run of cell() calls. */
  function CellsStep(cfg: Config, w: State, cells: seq<Cell>): (r: State)
    requires w.rowIsOpen && w.pendingSeps <= w.col
    ensures r.rowIsOpen && r.pendingSeps <= r.col && r.col == w.col + |cells|
    ensures r.currentRow == w.currentRow
    decreases |cells|
  {
    if cells == [] then w
    else CellStep(cfg, CellsStep(cfg, w, cells[..|cells| - 1]), cells[|cells| - 1])
  }

  /** One complete row: begin_row, a cell call per cell, end_row. */
  function WriteRow(cfg: Config, w: State, cells: seq<Cell>, skipNewline: bool): State
    requires !w.rowIsOpen
  {
    EndRowStep(cfg, CellsStep(cfg, BeginRowStep(w), cells), skipNewline)
  }

  /** Rows written one after another, each ended with a newline. */
  function WriteRows(cfg: Config, w: State, rows: seq<seq<Cell>>): State
    requires !w.rowIsOpen
    decreases |rows|
  {
    if rows == [] then w else WriteRows(cfg, WriteRow(cfg, w, rows[0], false), rows[1..])
  }

  // ---------------------------------------------------------------------
  // Reference reading of a row: the fields a reader sees

  /** The text of each cell. */
  function Texts(cfg: Config, cells: seq<Cell>): (r: seq<string>)
    ensures |r| == |cells| && forall i :: 0 <= i < |cells| ==> r[i] == CellText(cfg, cells[i])
  {
    if cells == [] then [] else Texts(cfg, cells[..|cells| - 1]) + [CellText(cfg, cells[|cells| - 1])]
  }

  /** The fields padded with empty ones to at least m. */
  function PadTo(fs: seq<string>, m: nat): (r: seq<string>)
    ensures |r| == Max(|fs|, m) && r[..|fs|] == fs
    ensures forall i :: |fs| <= i < |r| ==> r[i] == []
  {
    if |fs| >= m then fs else fs + Empties(m - |fs|)
  }

  /** The fields of the line a row becomes. */
  function RowFields(cfg: Config, cells: seq<Cell>): seq<string>
  {
    PadTo(TrimEmpty(Texts(cfg, cells)), cfg.minColumns)
  }

  lemma TrimSplit(fs: seq<string>)
    ensures fs == TrimEmpty(fs) + Empties(|fs| - |TrimEmpty(fs)|)
  {
    var t := TrimEmpty(fs);
    assert fs == fs[..|t|] + fs[|t|..];
  }

  /** Pending separators after n cells whose non-blank prefix has k fields. */
  function PendingAfter(n: nat, k: nat): nat
    requires k <= n
  {
    if k == 0 then (if n == 0 then 0 else n - 1) else n - k
  }

  /**
    The state after the cells with texts ts, for a row opened over text
    base: the non-blank prefix of the texts is written, joined by
    separators, and the separators of the trailing blank cells are pending.
  */
  ghost predicate Shaped(sep: char, base: string, r: State, ts: seq<string>)
  {
    r.rowIsOpen && r.col == |ts|
    && r.out == base + Join(sep, TrimEmpty(ts))
    && r.pendingSeps == PendingAfter(|ts|, |TrimEmpty(ts)|)
  }

  lemma BlankCellShape(cfg: Config, base: string, r: State, ts: seq<string>, c: Cell)
    requires Shaped(cfg.sep, base, r, ts) && r.pendingSeps <= r.col
    requires c.None? || c.value == []
    ensures Shaped(cfg.sep, base, CellStep(cfg, r, c), ts + [CellText(cfg, c)])
  {
    var ts' := ts + [CellText(cfg, c)];
    assert ts'[..|ts'| - 1] == ts;
  }

  /** A non-empty text after fields ts: the separators the row owes, then the text. */
  lemma JoinAfterGap(sep: char, ts: seq<string>, x: string)
    requires x != []
    ensures Join(sep, TrimEmpty(ts + [x])) == Join(sep, TrimEmpty(ts))
      + Seps(sep, PendingAfter(|ts|, |TrimEmpty(ts)|) + (if |ts| != 0 then 1 else 0)) + x
  {
    var f := TrimEmpty(ts);
    var m := |ts| - |f|;
    assert TrimEmpty(ts + [x]) == f + Empties(m) + [x] by {
      TrimSplit(ts);
      assert TrimEmpty(ts + [x]) == ts + [x];
    }
    JoinGap(sep, f, m, x);
  }

  /** Fields f, then m empty ones, then x: the empty ones cost only their separators. */
  lemma JoinGap(sep: char, f: seq<string>, m: nat, x: string)
    ensures Join(sep, f + Empties(m) + [x]) == Join(sep, f)
      + Seps(sep, PendingAfter(|f| + m, |f|) + (if |f| + m != 0 then 1 else 0)) + x
  {
    JoinSnoc(sep, f + Empties(m), x);
    if f == [] {
      assert f + Empties(m) == Empties(m);
      if m >= 1 {
        JoinEmpties(sep, m);
        assert Seps(sep, m - 1) + [sep] == Seps(sep, m);
      }
    } else {
      JoinPad(sep, f, m);
      assert Seps(sep, m) + [sep] == Seps(sep, m + 1);
    }
  }

  lemma TextCellShape(cfg: Config, base: string, r: State, ts: seq<string>, c: Cell)
    requires Shaped(cfg.sep, base, r, ts) && r.pendingSeps <= r.col
    requires c.Some? && c.value != []
    ensures Shaped(cfg.sep, base, CellStep(cfg, r, c), ts + [CellText(cfg, c)])
  {
    var x := CellText(cfg, c);
    CellTextEmpty(cfg, c);
    JoinAfterGap(cfg.sep, ts, x);
    var ts' := ts + [x];
    assert TrimEmpty(ts') == ts';
  }

  /** The shape of the state after the cells of a row (see Shaped). */
  lemma {:induction false} CellsShape(cfg: Config, w: State, cells: seq<Cell>)
    requires w.rowIsOpen && w.col == 0 && w.pendingSeps == 0
    ensures Shaped(cfg.sep, w.out, CellsStep(cfg, w, cells), Texts(cfg, cells))
    decreases |cells|
  {
    if cells == [] {
      assert Join(cfg.sep, []) == [];
    } else {
      var n := |cells|;
      var cs := cells[..n - 1];
      var c := cells[n - 1];
      CellsShape(cfg, w, cs);
      var prev := CellsStep(cfg, w, cs);
      assert Texts(cfg, cells) == Texts(cfg, cs) + [CellText(cfg, c)];
      if c.None? || c.value == [] {
        BlankCellShape(cfg, w.out, prev, Texts(cfg, cs), c);
      } else {
        TextCellShape(cfg, w.out, prev, Texts(cfg, cs), c);
      }
    }
  }

  /** end_row's padding followed by the trimmed fields: the padded fields. */
  lemma PadShape(sep: char, f: seq<string>, c: nat, m: nat)
    requires f != [] ==> c == |f|
    requires f == [] ==> c <= 1
    ensures Join(sep, f) + Seps(sep, PadCount(c, m)) == Join(sep, PadTo(f, m))
  {
    if |f| >= m {
      assert Seps(sep, PadCount(c, m)) == [];
    } else if f != [] {
      JoinPad(sep, f, m - |f|);
    } else {
      assert f + Empties(m) == Empties(m);
      JoinEmpties(sep, m);
    }
  }

  /**
    The text of a row written with begin_row, cell, ..., end_row: the
    non-blank prefix of its cells' texts, padded with empty fields to
    min_columns, joined by separators, then a newline unless skipped. So a
    blank cell costs only its separator, trailing blank cells cost nothing,
    and current_row counts the row.
  */
  lemma WriteRowText(cfg: Config, w: State, cells: seq<Cell>, skipNewline: bool)
    requires !w.rowIsOpen
    ensures var r := WriteRow(cfg, w, cells, skipNewline);
      !r.rowIsOpen && r.currentRow == w.currentRow + 1
      && r.out == w.out + Join(cfg.sep, RowFields(cfg, cells)) + (if skipNewline then [] else "\n")
  {
    var w0 := BeginRowStep(w);
    CellsShape(cfg, w0, cells);
    var f := TrimEmpty(Texts(cfg, cells));
    var wc := CellsStep(cfg, w0, cells);
    PadShape(cfg.sep, f, wc.col - wc.pendingSeps, cfg.minColumns);
  }

  /** The text of rows written in turn, and the row counter. */
  function RowsText(cfg: Config, rows: seq<seq<Cell>>): string
    decreases |rows|
  {
    if rows == [] then [] else Join(cfg.sep, RowFields(cfg, rows[0])) + "\n" + RowsText(cfg, rows[1..])
  }

  lemma WriteRowsCons(cfg: Config, w: State, rows: seq<seq<Cell>>)
    requires !w.rowIsOpen && rows != []
    ensures var w1 := WriteRow(cfg, w, rows[0], false);
      !w1.rowIsOpen && w1.currentRow == w.currentRow + 1
      && WriteRows(cfg, w, rows) == WriteRows(cfg, w1, rows[1..])
      && w.out + RowsText(cfg, rows) == w1.out + RowsText(cfg, rows[1..])
  {
    var w1 := WriteRow(cfg, w, rows[0], false);
    var line := Join(cfg.sep, RowFields(cfg, rows[0])) + "\n";
    assert w1.out == w.out + line && !w1.rowIsOpen && w1.currentRow == w.currentRow + 1 by {
      WriteRowText(cfg, w, rows[0], false);
    }
    assert RowsText(cfg, rows) == line + RowsText(cfg, rows[1..]);
    ConcatAssoc(w.out, line, RowsText(cfg, rows[1..]));
  }


  lemma {:induction false} WriteRowsText(cfg: Config, w: State, rows: seq<seq<Cell>>)
    requires !w.rowIsOpen
    ensures var r := WriteRows(cfg, w, rows);
      !r.rowIsOpen && r.currentRow == w.currentRow + |rows| && r.out == w.out + RowsText(cfg, rows)
    decreases |rows|
  {
    if rows != [] {
      WriteRowsCons(cfg, w, rows);
      WriteRowsText(cfg, WriteRow(cfg, w, rows[0], false), rows[1..]);
    }
  }

  /** Two cells and min_columns = 5: four separators in all. */
  lemma MinColumnsExample(w: State)
    requires !w.rowIsOpen
    ensures WriteRow(Config('"', ',', true, 5, true), w, [Some("a"), Some("b")], false).out
      == w.out + "a,b,,,\n"
  {
    var cfg := Config('"', ',', true, 5, true);
    var cells := [Some("a"), Some("b")];
    WriteRowText(cfg, w, cells, false);
    assert RowFields(cfg, cells) == ["a", "b"] + Empties(3) by {
      PlainTexts(cfg, cells);
    }
    PaddedJoin();
  }

  lemma PaddedJoin()
    ensures Join(',', ["a", "b"] + Empties(3)) == "a,b,,,"
  {
    JoinPad(',', ["a", "b"], 3);
    assert Join(',', ["a", "b"]) == "a,b" by {
      assert ["a", "b"][1..] == ["b"];
    }
    assert Seps(',', 3) == ",,,";
  }

  /** The texts of the two plain cells of MinColumnsExample are the cells themselves. */
  lemma PlainTexts(cfg: Config, cells: seq<Cell>)
    requires cfg == Config('"', ',', true, 5, true) && cells == [Some("a"), Some("b")]
    ensures TrimEmpty(Texts(cfg, cells)) == ["a", "b"]
  {
    assert !NeedQuote(cfg, "a") && !NeedQuote(cfg, "b");
    assert Texts(cfg, cells) == ["a", "b"] by {
      assert Texts(cfg, cells)[0] == "a";
    }
    assert TrimEmpty(["a", "b"]) == ["a", "b"];
  }

  // ---------------------------------------------------------------------
  // The writer object

  class CsvWriter {
    const qchar: char
    const sep: char
    const smartQuote: bool
    const minColumns: nat
    const quoteQuotes: bool
    var col: nat
    var pendingSeps: nat
    var rowIsOpen: bool
    var currentRow: nat
    /** What the Output functor has received. */
    var out: string

    function Settings(): Config
    {
      Config(qchar, sep, smartQuote, minColumns, quoteQuotes)
    }

    function Snapshot(): State
      reads this
    {
      State(col, pendingSeps, rowIsOpen, currentRow, out)
    }

    /** While a row is open, the pending separators never outnumber the cells. */
    ghost predicate Valid()
      reads this
    {
      rowIsOpen ==> pendingSeps <= col
    }

    /** The constructor that takes an Output, text empty so far. */
    constructor (qchar: char, sep: char, smartQuote: bool, minColumns: nat, quoteQuotes: bool)
      ensures Settings() == Config(qchar, sep, smartQuote, minColumns, quoteQuotes)
      ensures Valid() && Snapshot() == State(0, 0, false, 0, [])
    {
      this.qchar, this.sep, this.smartQuote := qchar, sep, smartQuote;
      this.minColumns, this.quoteQuotes := minColumns, quoteQuotes;
      col, pendingSeps, rowIsOpen, currentRow, out := 0, 0, false, 0, [];
    }

    method BeginRow()
      requires Valid() && !rowIsOpen
      modifies this
      ensures Valid() && Snapshot() == BeginRowStep(old(Snapshot()))
    {
      rowIsOpen := true;
      col := 0;
      pendingSeps := 0;
      currentRow := currentRow + 1;
    }

    method Cell(c: Cell)
      requires Valid() && rowIsOpen
      modifies this
      ensures Valid() && Snapshot() == CellStep(Settings(), old(Snapshot()), c)
    {
      ghost var pending := pendingSeps + (if col != 0 then 1 else 0);
      if col != 0 {
        pendingSeps := pendingSeps + 1;
      }
      col := col + 1;
      if c.None? || |c.value| == 0 {
        return;
      }
      var text := RenderText(c.value);
      FlushSeps();
      assert out == old(out) + Seps(sep, pending);
      out := out + text;
    }

    /** The text of a non-empty cell: raw when quoting is off or not needed, else quoted with quotes doubled. */
    method RenderText(s: string) returns (text: string)
      ensures text == Render(Settings(), s)
    {
      if qchar == '\0' || (smartQuote && !NeedQuote(Settings(), s)) {
        text := s;
      } else {
        text := QuoteCopy(qchar, s);
      }
    }

    /** The loop at the head of a non-empty cell: every pending separator written. */
    method FlushSeps()
      modifies this
      ensures out == old(out) + Seps(sep, old(pendingSeps)) && pendingSeps == 0
      ensures col == old(col) && rowIsOpen == old(rowIsOpen) && currentRow == old(currentRow)
    {
      ghost var n := pendingSeps;
      while pendingSeps > 0
        invariant pendingSeps <= n && out == old(out) + Seps(sep, n - pendingSeps)
        invariant col == old(col) && rowIsOpen == old(rowIsOpen) && currentRow == old(currentRow)
      {
        assert Seps(sep, n - pendingSeps + 1) == Seps(sep, n - pendingSeps) + [sep];
        out := out + [sep];
        pendingSeps := pendingSeps - 1;
      }
    }

    method EndRow(skipNewline: bool)
      requires Valid() && rowIsOpen
      modifies this
      ensures Valid() && Snapshot() == EndRowStep(Settings(), old(Snapshot()), skipNewline)
    {
      rowIsOpen := false;
      col := col - pendingSeps;
      ghost var c0 := col;
      ghost var before := out;
      while col < minColumns
        invariant c0 <= col && (col == c0 || col <= minColumns)
        invariant out == before + Seps(sep, PadCount(c0, col))
        invariant !rowIsOpen && pendingSeps == old(pendingSeps) && currentRow == old(currentRow)
      {
        if col != 0 {
          out := out + [sep];
        }
        col := col + 1;
        assert Seps(sep, PadCount(c0, col)) == Seps(sep, PadCount(c0, col - 1)) + (if col - 1 != 0 then [sep] else []);
      }
      if !skipNewline {
        out := out + "\n";
      }
    }

    /** is_row_open(): whether a row has been started and not yet ended. */
    function IsRowOpen(): (r: bool)
      reads this
      ensures r == Snapshot().rowIsOpen
    {
      rowIsOpen
    }

    /** finish(): the requires is the source's assert(!row_is_open); nothing is written. */
    method Finish()
      requires Valid() && !rowIsOpen
      ensures Snapshot() == old(Snapshot())
    {
    }

    /** get_current_row(): the number of rows ended so far. */
    function GetCurrentRow(): (r: nat)
      reads this
      ensures r == Snapshot().currentRow
    {
      currentRow
    }
  }

  // ---------------------------------------------------------------------
  // add_dos_cr_out

  /** The text one call of add_dos_cr_out hands on for buffer s. */
  function DosCr(s: string): string
  {
    if s == [] then []
    else
      var p := s[..|s| - 1];
      DosCr(p) + (if s[|s| - 1] == '\n' && !(p != [] && p[|p| - 1] == '\r') then "\r\n" else [s[|s| - 1]])
  }

  /** add_dos_cr_out::operator(): what reaches the wrapped Output for one call. */
  method AddDosCr(buf: string) returns (written: string)
    ensures written == DosCr(buf)
  {
    var lastWasCr := false;
    var b, pos := 0, 0;
    written := [];
    while pos < |buf|
      invariant 0 <= b <= pos <= |buf|
      invariant lastWasCr == (pos > 0 && buf[pos - 1] == '\r')
      invariant written + buf[b..pos] == DosCr(buf[..pos])
    {
      DosCrPrefix(buf, pos);
      ghost var done := written + buf[b..pos];
      assert buf[b..pos + 1] == buf[b..pos] + [buf[pos]];
      if buf[pos] == '\n' && !lastWasCr {
        written := written + buf[b..pos] + ['\r'];
        b := pos;
        assert written + buf[b..pos + 1] == done + "\r\n";
      } else {
        assert written + buf[b..pos + 1] == done + [buf[pos]];
      }
      lastWasCr := buf[pos] == '\r';
      pos := pos + 1;
    }
    assert buf[..pos] == buf;
    written := written + buf[b..pos];
  }

  lemma DosCrPrefix(s: string, n: nat)
    requires n < |s|
    ensures DosCr(s[..n + 1]) == DosCr(s[..n])
      + (if s[n] == '\n' && !(n > 0 && s[n - 1] == '\r') then "\r\n" else [s[n]])
  {
    assert s[..n + 1][..n] == s[..n];
  }

  /** The decorator keeps the buffer's last character last. */
  lemma DosCrLast(s: string)
    requires s != []
    ensures DosCr(s) != [] && DosCr(s)[|DosCr(s)| - 1] == s[|s| - 1]
  {
  }

  /** Every LF in the output has a CR before it. */
  lemma {:induction false} DosCrLfHasCr(s: string)
    ensures forall i :: 0 <= i < |DosCr(s)| && DosCr(s)[i] == '\n' ==> i > 0 && DosCr(s)[i - 1] == '\r'
  {
    if s != [] {
      var p := s[..|s| - 1];
      DosCrLfHasCr(p);
      if p != [] {
        DosCrLast(p);
      }
    }
  }

  /** s with the CR of every CRLF pair removed. */
  function StripCr(s: string): string
  {
    if s == [] then []
    else
      var p := s[..|s| - 1];
      if s[|s| - 1] == '\n' && p != [] && p[|p| - 1] == '\r' then StripCr(p[..|p| - 1]) + "\n"
      else StripCr(p) + [s[|s| - 1]]
  }

  lemma StripCrSnoc(t: string, c: char)
    requires c != '\n' || t == [] || t[|t| - 1] != '\r'
    ensures StripCr(t + [c]) == StripCr(t) + [c]
  {
    assert (t + [c])[..|t|] == t;
  }

  lemma StripCrPair(t: string)
    ensures StripCr(t + "\r\n") == StripCr(t) + "\n"
  {
    var u := t + "\r\n";
    assert u[..|u| - 1] == t + "\r";
    assert u[..|u| - 1][..|u| - 2] == t;
  }

  lemma DosCrSnoc(p: string, c: char)
    ensures DosCr(p + [c]) == DosCr(p) + (if c == '\n' && !(p != [] && p[|p| - 1] == '\r') then "\r\n" else [c])
  {
    var s := p + [c];
    assert s[..|s| - 1] == p && s[|s| - 1] == c;
  }

  /**
    Nothing but CRs before LFs changes: output and input agree once every CR
    of a CRLF pair is removed. With DosCrLfHasCr this determines the output.
  */
  lemma {:induction false} DosCrStrip(s: string)
    ensures StripCr(DosCr(s)) == StripCr(s)
    decreases |s|
  {
    if s != [] {
      var p := s[..|s| - 1];
      var c := s[|s| - 1];
      assert s == p + [c];
      DosCrSnoc(p, c);
      DosCrStrip(p);
      var d := DosCr(p);
      if c == '\n' && !(p != [] && p[|p| - 1] == '\r') {
        StripCrPair(d);
        StripCrSnoc(p, c);
      } else if c == '\n' {
        var p' := p[..|p| - 1];
        assert p == p' + ['\r'];
        DosCrStrip(p');
        DosCrSnoc(p', '\r');
        assert d == DosCr(p') + ['\r'];
        assert d + [c] == DosCr(p') + "\r\n";
        StripCrPair(DosCr(p'));
        assert s == p' + "\r\n";
        StripCrPair(p');
      } else {
        StripCrSnoc(d, c);
        StripCrSnoc(p, c);
      }
    }
  }

  lemma {:induction false} DosCrNoLf(s: string)
    requires forall i :: 0 <= i < |s| ==> s[i] != '\n'
    ensures DosCr(s) == s
  {
    if s != [] {
      DosCrNoLf(s[..|s| - 1]);
    }
  }

  /** Each call starts afresh: a CR ending one call does not cover an LF starting the next. */
  lemma DosCrPerCall()
    ensures DosCr("\r") + DosCr("\n") == "\r\r\n"
    ensures DosCr("\r\n") == "\r\n"
  {
    assert "\r\n"[..1] == "\r";
  }
}
