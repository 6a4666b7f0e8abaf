/**
  The current csv_writer and the csvparser.hpp state machine together: rows
  written with the writer's usual settings (double quote, comma, smart
  quoting, quote_quotes, no min_columns) and read back by the parser give
  the same rows, once an empty text is identified with NULL (the writer
  writes nothing for both) and as long as no row ends in a blank cell (the
  writer drops the separators of trailing blank cells).
*/
module RoundTrip {
  import opened CsvBase
  import opened CsvParser
  import opened ParserFacts
  import opened ParserRows
  import opened Writer

  function Settings(): Config
  {
    Config('"', ',', true, 0, true)
  }

  /** A writer as constructed: no row open, nothing written. */
  function FreshWriter(): Writer.State
  {
    Writer.State(0, 0, false, 0, [])
  }

  /** The cell a reader gets back: an empty text reads as NULL. */
  function Normal(c: Cell): Cell
  {
    if c == Some([]) then None else c
  }

  function Normals(cells: seq<Cell>): (r: seq<Cell>)
    ensures |r| == |cells| && forall i :: 0 <= i < |cells| ==> r[i] == Normal(cells[i])
  {
    if cells == [] then [] else [Normal(cells[0])] + Normals(cells[1..])
  }

  /** A row the writer can write without losing a cell: empty, or ending in a non-empty text. */
  predicate Closed(cells: seq<Cell>)
  {
    cells == [] || (cells[|cells| - 1].Some? && cells[|cells| - 1].value != [])
  }

  /** How the writer spells a cell, in the parser's terms. */
  function Spelling(c: Cell): FieldText
  {
    match c
    case None => Blank(0)
    case Some(s) =>
      if s == [] then Blank(0)
      else if Render(Settings(), s) == s then Plain(0, s, 0)
      else Quote(0, s, 0)
  }

  function Spellings(cells: seq<Cell>): (fs: seq<FieldText>)
    ensures |fs| == |cells| && forall i :: 0 <= i < |cells| ==> fs[i] == Spelling(cells[i])
  {
    if cells == [] then [] else [Spelling(cells[0])] + Spellings(cells[1..])
  }

  /** The spelling of a written line: an empty row is a lone blank field. */
  function LineSpelling(cells: seq<Cell>): seq<FieldText>
  {
    if cells == [] then [Blank(0)] else Spellings(cells)
  }

  /** A cell's written text is a field the parser reads back as the normalised cell. */
  lemma FieldOfCell(c: Cell, d: char)
    ensures WellFormed('"', ',', Spelling(c))
    ensures FieldBytes('"', Spelling(c), d) == CellText(Settings(), c) + [d]
    ensures Value(Spelling(c)) == Normal(c)
  {
    var cfg := Settings();
    match c
    case None =>
    case Some(s) =>
      if s != [] {
        RenderReadsBack(cfg, s);
        if Render(cfg, s) == s {
          assert Spaces(0) + (s + Spaces(0) + [d]) == s + [d];
          assert s + Spaces(0) == s;
          forall i | 0 <= i < |s|
            ensures s[i] != '"' && s[i] != ',' && s[i] != '\n'
          {
            assert !Special(cfg, s[i]);
          }
        } else {
          assert Spaces(0) + (Quoted('"', s) + (Spaces(0) + [d])) == Quoted('"', s) + [d];
        }
      }
  }

  /** Every field a row is spelled as is one the parser accepts. */
  lemma SpellingsWellFormed(cells: seq<Cell>)
    ensures forall i :: 0 <= i < |cells| ==> WellFormed('"', ',', Spellings(cells)[i])
  {
    forall i | 0 <= i < |cells|
      ensures WellFormed('"', ',', Spellings(cells)[i])
    {
      FieldOfCell(cells[i], ',');
    }
  }

  /** The bytes of a written row's fields are its cells' texts joined by commas, then a newline. */
  lemma {:induction false} LineOfCells(cells: seq<Cell>)
    requires cells != []
    ensures LineBytes('"', ',', Spellings(cells)) == Join(',', Texts(Settings(), cells)) + "\n"
    decreases |cells|
  {
    var cfg := Settings();
    var fs := Spellings(cells);
    var ts := Texts(cfg, cells);
    if |cells| == 1 {
      FieldOfCell(cells[0], '\n');
      assert ts == [CellText(cfg, cells[0])];
    } else {
      var rest := cells[1..];
      var head := CellText(cfg, cells[0]) + [','];
      var tail := Join(',', Texts(cfg, rest));
      assert LineBytes('"', ',', fs) == head + LineBytes('"', ',', Spellings(rest)) by {
        FieldOfCell(cells[0], ',');
        assert fs[1..] == Spellings(rest);
      }
      assert Join(',', ts) == head + tail by {
        assert ts[1..] == Texts(cfg, rest);
      }
      LineOfCells(rest);
      ConcatAssoc(head, tail, "\n");
    }
  }

  /** A row ending in a non-empty text is written with all its fields. */
  lemma ClosedFields(cells: seq<Cell>)
    requires cells != [] && Closed(cells)
    ensures RowFields(Settings(), cells) == Texts(Settings(), cells)
    ensures Join(',', Texts(Settings(), cells)) != []
  {
    var ts := Texts(Settings(), cells);
    CellTextEmpty(Settings(), cells[|cells| - 1]);
    assert ts[|ts| - 1] != [];
    assert TrimEmpty(ts) == ts;
    JoinEndsWith(',', ts);
  }

  /** The fields a row is spelled as are read back as its normalised cells. */
  lemma SpellingsValues(cells: seq<Cell>)
    ensures Values(Spellings(cells)) == Normals(cells)
  {
    forall i | 0 <= i < |cells|
      ensures Values(Spellings(cells))[i] == Normals(cells)[i]
    {
      FieldOfCell(cells[i], ',');
    }
  }

  /** What the fields of a written line are read back as. */
  lemma LineReadBack(cells: seq<Cell>)
    requires Closed(cells)
    ensures LineSpelling(cells) != []
    ensures forall i :: 0 <= i < |LineSpelling(cells)| ==> WellFormed('"', ',', LineSpelling(cells)[i])
    ensures LineBytes('"', ',', LineSpelling(cells)) == Join(',', RowFields(Settings(), cells)) + "\n"
    ensures LineRow('"', ',', LineSpelling(cells)) == Normals(cells)
  {
    if cells == [] {
      assert LineBytes('"', ',', [Blank(0)]) == "\n";
      assert Texts(Settings(), cells) == [];
    } else {
      LineOfCells(cells);
      SpellingsWellFormed(cells);
      ClosedFields(cells);
      SpellingsValues(cells);
    }
  }

  /** The join of fields whose last is non-empty ends with that field, so it is not empty. */
  lemma {:induction false} JoinEndsWith(sep: char, fs: seq<string>)
    requires fs != [] && fs[|fs| - 1] != []
    ensures |Join(sep, fs)| >= |fs[|fs| - 1]| > 0
    decreases |fs|
  {
    if |fs| > 1 {
      JoinEndsWith(sep, fs[1..]);
    }
  }

  function SpellRows(rows: seq<seq<Cell>>): (ls: seq<seq<FieldText>>)
    ensures |ls| == |rows| && forall j :: 0 <= j < |rows| ==> ls[j] == LineSpelling(rows[j])
  {
    if rows == [] then [] else [LineSpelling(rows[0])] + SpellRows(rows[1..])
  }

  function NormalRows(rows: seq<seq<Cell>>): (r: seq<seq<Cell>>)
    ensures |r| == |rows| && forall j :: 0 <= j < |rows| ==> r[j] == Normals(rows[j])
  {
    if rows == [] then [] else [Normals(rows[0])] + NormalRows(rows[1..])
  }

  /** The text of written rows is the bytes of their spellings, and those are read back as the normalised rows. */
  lemma {:induction false} RowsReadBack(rows: seq<seq<Cell>>)
    requires forall j :: 0 <= j < |rows| ==> Closed(rows[j])
    ensures forall j :: 0 <= j < |rows| ==> SpellRows(rows)[j] != []
    ensures forall j, i :: 0 <= j < |rows| && 0 <= i < |SpellRows(rows)[j]| ==> WellFormed('"', ',', SpellRows(rows)[j][i])
    ensures LinesBytes('"', ',', SpellRows(rows)) == RowsText(Settings(), rows)
    ensures LinesRows('"', ',', SpellRows(rows)) == NormalRows(rows)
    decreases |rows|
  {
    forall j | 0 <= j < |rows|
      ensures SpellRows(rows)[j] != []
      ensures forall i :: 0 <= i < |SpellRows(rows)[j]| ==> WellFormed('"', ',', SpellRows(rows)[j][i])
    {
      LineReadBack(rows[j]);
    }
    if rows != [] {
      var ls := SpellRows(rows);
      RowsReadBack(rows[1..]);
      LineReadBack(rows[0]);
      assert ls == [LineSpelling(rows[0])] + SpellRows(rows[1..]);
      LinesBytesCons('"', ',', LineSpelling(rows[0]), SpellRows(rows[1..]));
      assert NormalRows(rows) == [Normals(rows[0])] + NormalRows(rows[1..]);
    }
  }

  /**
    Round trip: rows written by a fresh writer, read by a fresh parser in
    one call, give each row back with empty texts as NULL; the parser
    consumes everything without an error.
  */
  lemma ParseWrite(rows: seq<seq<Cell>>)
    requires forall j :: 0 <= j < |rows| ==> Closed(rows[j])
    ensures var text := WriteRows(Settings(), FreshWriter(), rows).out;
      Run('"', ',', Initial(), text) == Outcome(Initial().(out := TableEvents(NormalRows(rows))), |text|, false)
  {
    var text := WriteRows(Settings(), FreshWriter(), rows).out;
    var ls := SpellRows(rows);
    assert text == RowsText(Settings(), rows) by {
      WriteRowsText(Settings(), FreshWriter(), rows);
    }
    RowsReadBack(rows);
    assert text == LinesBytes('"', ',', ls);
    assert Dialect('"', ',') && Consistent(Initial());
    LinesRun('"', ',', Initial(), ls);
    assert Initial().out + TableEvents(LinesRows('"', ',', ls)) == TableEvents(NormalRows(rows));
  }

  /**
    Why the side condition is there: a trailing blank cell is written as
    nothing at all, so a row and the same row with one more NULL cell give
    the same text, whatever the settings.
  */
  lemma TrailingBlankLost(cfg: Config, w: Writer.State, cells: seq<Cell>)
    requires !w.rowIsOpen
    ensures WriteRows(cfg, w, [cells + [None]]).out == WriteRows(cfg, w, [cells]).out
  {
    var longer := cells + [None];
    assert longer[..|longer| - 1] == cells;
    assert Texts(cfg, longer) == Texts(cfg, cells) + [[]];
    assert TrimEmpty(Texts(cfg, longer)) == TrimEmpty(Texts(cfg, cells));
    WriteRowsText(cfg, w, [longer]);
    WriteRowsText(cfg, w, [cells]);
    assert [longer][1..] == [] && [cells][1..] == [];
  }
}
