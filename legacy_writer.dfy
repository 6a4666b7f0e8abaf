/**
  The older csv_writer of csvwriter.h: a separator before every cell but the
  first of a row (blank or not), NULL cells written as nothing, every other
  cell quoted unless smart quoting finds no need, and "\r\n" or "\n" ending
  each row. The Output functor is modelled as the text it has received.
*/
module LegacyWriter {
  import opened CsvBase

  datatype Config = Config(qchar: char, sep: char, smartQuote: bool, dosCr: bool)

  /** The writer's one flag and the output written so far. */
  datatype State = State(first: bool, out: string)

  /** The scan of need_quote: a quote character, the separator or a newline. */
  function NeedQuote(cfg: Config, s: string): bool
  {
    s != [] && (s[0] == cfg.qchar || s[0] == cfg.sep || s[0] == '\n' || NeedQuote(cfg, s[1..]))
  }

  lemma {:induction false} NeedQuoteExists(cfg: Config, s: string)
    ensures NeedQuote(cfg, s) <==> exists i :: 0 <= i < |s| && (s[i] == cfg.qchar || s[i] == cfg.sep || s[i] == '\n')
  {
    if s != [] {
      NeedQuoteExists(cfg, s[1..]);
      if NeedQuote(cfg, s[1..]) {
        var i :| 0 <= i < |s[1..]| && (s[1..][i] == cfg.qchar || s[1..][i] == cfg.sep || s[1..][i] == '\n');
        assert s[i + 1] == s[1..][i];
      }
      if exists i :: 0 <= i < |s| && (s[i] == cfg.qchar || s[i] == cfg.sep || s[i] == '\n') {
        var i :| 0 <= i < |s| && (s[i] == cfg.qchar || s[i] == cfg.sep || s[i] == '\n');
        if i > 0 {
          assert s[1..][i - 1] == s[i];
        }
      }
    }
  }

  /** What cell() writes after its separator. */
  function CellText(cfg: Config, c: Cell): string
  {
    match c
    case None => []
    case Some(s) => if cfg.smartQuote && !NeedQuote(cfg, s) then s else Quoted(cfg.qchar, s)
  }

  /**
    A non-NULL cell without smart quoting is always quoted, so an empty one
    still shows as two quote characters; a quoted cell reads back as its text.
  */
  lemma CellTextQuoting(cfg: Config, s: string)
    ensures !cfg.smartQuote ==> CellText(cfg, Some(s)) == Quoted(cfg.qchar, s)
    ensures !cfg.smartQuote && s == [] ==> CellText(cfg, Some(s)) == [cfg.qchar, cfg.qchar]
    ensures CellText(cfg, Some(s)) == s || Unescape(cfg.qchar, CellText(cfg, Some(s))[1..|CellText(cfg, Some(s))| - 1]) == Some(s)
    ensures cfg.smartQuote && CellText(cfg, Some(s)) == s ==>
      forall i :: 0 <= i < |s| ==> s[i] != cfg.qchar && s[i] != cfg.sep && s[i] != '\n'
  {
    var r := Quoted(cfg.qchar, s);
    assert r[1..|r| - 1] == Escape(cfg.qchar, s);
    UnescapeEscape(cfg.qchar, s);
    if cfg.smartQuote && CellText(cfg, Some(s)) == s {
      assert !NeedQuote(cfg, s) by {
        EscapeLength(cfg.qchar, s);
      }
      NeedQuoteExists(cfg, s);
    }
  }

  function Terminator(cfg: Config): string
  {
    if cfg.dosCr then "\r\n" else "\n"
  }

  function BeginRowStep(w: State): (r: State)
    ensures r.first && r.out == w.out
  {
    w.(first := true)
  }

  function CellStep(cfg: Config, w: State, c: Cell): (r: State)
    ensures !r.first
    ensures c.None? ==> r.out == w.out + (if w.first then [] else [cfg.sep])
  {
    State(false, w.out + (if w.first then [] else [cfg.sep]) + CellText(cfg, c))
  }

  function EndRowStep(cfg: Config, w: State): (r: State)
    ensures r.first == w.first
  {
    w.(out := w.out + Terminator(cfg))
  }

  function CellsStep(cfg: Config, w: State, cells: seq<Cell>): (r: State)
    decreases |cells|
  {
    if cells == [] then w
    else CellStep(cfg, CellsStep(cfg, w, cells[..|cells| - 1]), cells[|cells| - 1])
  }

  function WriteRow(cfg: Config, w: State, cells: seq<Cell>): State
  {
    EndRowStep(cfg, CellsStep(cfg, BeginRowStep(w), cells))
  }

  /** The text of each cell. */
  function Texts(cfg: Config, cells: seq<Cell>): (r: seq<string>)
    ensures |r| == |cells| && forall i :: 0 <= i < |cells| ==> r[i] == CellText(cfg, cells[i])
  {
    if cells == [] then [] else Texts(cfg, cells[..|cells| - 1]) + [CellText(cfg, cells[|cells| - 1])]
  }

  lemma {:induction false} CellsJoined(cfg: Config, w: State, cells: seq<Cell>)
    requires w.first
    ensures CellsStep(cfg, w, cells).out == w.out + Join(cfg.sep, Texts(cfg, cells))
    ensures CellsStep(cfg, w, cells).first <==> cells == []
    decreases |cells|
  {
    if cells != [] {
      var cs := cells[..|cells| - 1];
      CellsJoined(cfg, w, cs);
      JoinSnoc(cfg.sep, Texts(cfg, cs), CellText(cfg, cells[|cells| - 1]));
    }
  }

  /**
    One row: the cells' texts joined by exactly one separator between
    neighbours, whatever they hold, then the row terminator.
  */
  lemma WriteRowText(cfg: Config, w: State, cells: seq<Cell>)
    ensures WriteRow(cfg, w, cells).out == w.out + Join(cfg.sep, Texts(cfg, cells)) + Terminator(cfg)
  {
    CellsJoined(cfg, BeginRowStep(w), cells);
  }

  /** NULL cells cost only their separators: three NULLs give two separators and the terminator. */
  lemma NullRows(cfg: Config, w: State)
    ensures WriteRow(cfg, w, [None, None, None]).out == w.out + [cfg.sep, cfg.sep] + Terminator(cfg)
  {
    WriteRowText(cfg, w, [None, None, None]);
    var e: string := [];
    assert Texts(cfg, [None, None, None]) == [e, e, e];
    assert Join(cfg.sep, [e, e, e]) == [cfg.sep, cfg.sep] by {
      assert [e, e, e] == Empties(3);
      JoinEmpties(cfg.sep, 3);
      assert Seps(cfg.sep, 2) == [cfg.sep, cfg.sep];
    }
  }

  class CsvWriter {
    const qchar: char
    const sep: char
    const smartQuote: bool
    const dosCr: bool
    var first: bool
    /** What the Output functor has received. */
    var out: string

    function Settings(): Config
    {
      Config(qchar, sep, smartQuote, dosCr)
    }

    function Snapshot(): State
      reads this
    {
      State(first, out)
    }

    constructor (qchar: char, sep: char, smartQuote: bool, dosCr: bool)
      ensures Settings() == Config(qchar, sep, smartQuote, dosCr)
      ensures Snapshot() == State(true, [])
    {
      this.qchar, this.sep, this.smartQuote, this.dosCr := qchar, sep, smartQuote, dosCr;
      first, out := true, [];
    }

    method BeginRow()
      modifies this
      ensures Snapshot() == BeginRowStep(old(Snapshot()))
    {
      first := true;
    }

    method Cell(c: Cell)
      modifies this
      ensures Snapshot() == CellStep(Settings(), old(Snapshot()), c)
    {
      var lead: string := if first then [] else [sep];
      first := false;
      var text: string := [];
      if c.Some? {
        var s := c.value;
        if smartQuote && !NeedQuote(Settings(), s) {
          text := s;
        } else {
          text := QuoteCopy(qchar, s);
        }
      }
      assert text == CellText(Settings(), c);
      out := out + lead + text;
    }

    method EndRow()
      modifies this
      ensures Snapshot() == EndRowStep(Settings(), old(Snapshot()))
    {
      if dosCr {
        out := out + "\r\n";
      } else {
        out := out + "\n";
      }
    }
  }
}
