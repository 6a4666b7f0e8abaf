/**
  Vocabulary shared by the parser, the writers and the builders of cppcsv:
  optional values, results for operations that throw, the builder event
  stream (begin_row / cell / end_row), and quote doubling.
*/
module CsvBase {

  datatype Option<+T> = None | Some(value: T)

  /** The outcome of an operation that the source ends with a thrown exception. */
  datatype Result<+T> = Ok(value: T) | Err(message: string)

  /** A cell handed to a builder: None is a NULL `const char *`, Some(s) a span (possibly empty). */
  type Cell = Option<string>

  /** One call on a csv_builder sink, in the order the producer makes them. */
  datatype Event = BeginRow | CellEvent(cell: Cell) | EndRow

  /** The events of a run of cell calls. */
  function CellEvents(cells: seq<Cell>): (es: seq<Event>)
    ensures |es| == |cells|
    ensures forall i :: 0 <= i < |cells| ==> es[i] == CellEvent(cells[i])
  {
    if cells == [] then [] else [CellEvent(cells[0])] + CellEvents(cells[1..])
  }

  /** The calls of two runs of cells, one after the other. */
  lemma {:induction false} CellEventsAppend(a: seq<Cell>, b: seq<Cell>)
    ensures CellEvents(a + b) == CellEvents(a) + CellEvents(b)
  {
    if a == [] {
      assert a + b == b;
    } else {
      assert (a + b)[1..] == a[1..] + b;
      CellEventsAppend(a[1..], b);
    }
  }

  /** The events of one complete row: begin_row, one cell call per cell, end_row. */
  function RowEvents(cells: seq<Cell>): (es: seq<Event>)
    ensures |es| == |cells| + 2
    ensures es[0] == BeginRow && es[|es| - 1] == EndRow
    ensures es[1..|es| - 1] == CellEvents(cells)
  {
    [BeginRow] + CellEvents(cells) + [EndRow]
  }

  /** Appending a row's calls one by one is appending its RowEvents. */
  lemma RowEventsAfter(out: seq<Event>, cells: seq<Cell>)
    ensures out + [BeginRow] + CellEvents(cells) + [EndRow] == out + RowEvents(cells)
    ensures cells == [] ==> out + [BeginRow, EndRow] == out + RowEvents(cells)
  {
  }

  /** The events of a sequence of complete rows. */
  function TableEvents(rows: seq<seq<Cell>>): seq<Event>
  {
    if rows == [] then [] else RowEvents(rows[0]) + TableEvents(rows[1..])
  }

  lemma TableEventsCons(out: seq<Event>, row: seq<Cell>, rows: seq<seq<Cell>>)
    ensures out + RowEvents(row) + TableEvents(rows) == out + TableEvents([row] + rows)
  {
    assert ([row] + rows)[1..] == rows;
  }

  lemma {:induction false} TableEventsAppend(a: seq<seq<Cell>>, b: seq<seq<Cell>>)
    ensures TableEvents(a + b) == TableEvents(a) + TableEvents(b)
  {
    if a == [] {
      assert a + b == b;
    } else {
      assert (a + b)[1..] == a[1..] + b;
      TableEventsAppend(a[1..], b);
    }
  }

  /** The number of occurrences of c in s. */
  function Count(c: char, s: string): nat
  {
    if s == [] then 0 else Count(c, s[..|s| - 1]) + (if s[|s| - 1] == c then 1 else 0)
  }

  /**
    The body of a quoted cell: s with every occurrence of the quote character
    q doubled. Defined from the end, the way the writers' copy loops produce it.
  */
  function Escape(q: char, s: string): (r: string)
  {
    if s == [] then []
    else Escape(q, s[..|s| - 1]) + (if s[|s| - 1] == q then [q, q] else [s[|s| - 1]])
  }

  lemma {:induction false} EscapeAppend(q: char, a: string, b: string)
    ensures Escape(q, a + b) == Escape(q, a) + Escape(q, b)
    decreases |b|
  {
    if b == [] {
      assert a + b == a;
    } else {
      var b' := b[..|b| - 1];
      assert (a + b)[..|a + b| - 1] == a + b';
      EscapeAppend(q, a, b');
    }
  }

  /** Escaping adds exactly one character per quote character. */
  lemma {:induction false} EscapeLength(q: char, s: string)
    ensures |Escape(q, s)| == |s| + Count(q, s)
  {
    if s != [] {
      EscapeLength(q, s[..|s| - 1]);
    }
  }

  /** Text without the quote character is left unchanged by escaping. */
  lemma {:induction false} EscapeWithoutQuote(q: char, s: string)
    requires forall i :: 0 <= i < |s| ==> s[i] != q
    ensures Escape(q, s) == s
  {
    if s != [] {
      EscapeWithoutQuote(q, s[..|s| - 1]);
    }
  }

  /** A quoted cell: opening quote, escaped body, closing quote. */
  function Quoted(q: char, s: string): string
  {
    [q] + Escape(q, s) + [q]
  }

  /** Reference reading of a quoted body: each doubled quote decodes to one. */
  function Unescape(q: char, r: string): Option<string>
  {
    if r == [] then Some([])
    else if r[0] != q then
      match Unescape(q, r[1..])
      case Some(t) => Some([r[0]] + t)
      case None => None
    else if |r| >= 2 && r[1] == q then
      match Unescape(q, r[2..])
      case Some(t) => Some([q] + t)
      case None => None
    else None
  }

  /** Escape and Unescape are inverse: doubling quotes loses nothing. */
  lemma {:induction false} UnescapeEscape(q: char, s: string)
    ensures Unescape(q, Escape(q, s)) == Some(s)
  {
    if s != [] {
      var c := s[0];
      EscapeAppend(q, [c], s[1..]);
      assert [c] + s[1..] == s;
      assert Escape(q, [c]) == (if c == q then [q, q] else [c]) by {
        assert [c][..0] == [];
      }
      UnescapeEscape(q, s[1..]);
      var r := Escape(q, s);
      if c == q {
        assert r[2..] == Escape(q, s[1..]);
      } else {
        assert r[1..] == Escape(q, s[1..]);
      }
    }
  }

  /** Escaping one more character of a prefix. */
  lemma EscapePrefix(q: char, s: string, n: nat)
    requires n < |s|
    ensures Escape(q, s[..n + 1]) == Escape(q, s[..n]) + (if s[n] == q then [q, q] else [s[n]])
  {
    assert s[..n + 1][..n] == s[..n];
  }

  /**
    The quote-doubling copy loop of both writers' cell(): the opening quote,
    then the text in pieces that end just after each quote character, the
    piece after the last one starting again at that quote, and the closing quote.
  */
  method QuoteCopy(q: char, s: string) returns (r: string)
    ensures r == [q] + Escape(q, s) + [q]
    ensures Unescape(q, r[1..|r| - 1]) == Some(s)
  {
    r := [q];
    var b, pos := 0, 0;
    while pos < |s|
      invariant 0 <= b <= pos <= |s|
      invariant r + s[b..pos] == [q] + Escape(q, s[..pos])
    {
      EscapePrefix(q, s, pos);
      ghost var done := r + s[b..pos];
      assert s[b..pos + 1] == s[b..pos] + [s[pos]];
      if s[pos] == q {
        r := r + s[b..pos + 1];
        b := pos;
        assert r + s[b..pos + 1] == done + [q, q];
      } else {
        assert r + s[b..pos + 1] == done + [s[pos]];
      }
      pos := pos + 1;
    }
    assert s[..pos] == s;
    r := r + s[b..pos];
    r := r + [q];
    assert r[1..|r| - 1] == Escape(q, s);
    UnescapeEscape(q, s);
  }

  /** The fields joined by one separator between neighbours. */
  function Join(sep: char, fields: seq<string>): string
  {
    if fields == [] then []
    else if |fields| == 1 then fields[0]
    else fields[0] + [sep] + Join(sep, fields[1..])
  }

  /** n copies of the separator. */
  function Seps(sep: char, n: nat): (r: string)
    ensures |r| == n && forall i :: 0 <= i < n ==> r[i] == sep
  {
    seq(n, _ => sep)
  }

  /** n empty fields. */
  function Empties(n: nat): (r: seq<string>)
    ensures |r| == n && forall i :: 0 <= i < n ==> r[i] == []
  {
    seq(n, _ => [])
  }

  /** Adding one field at the end adds one separator and that field. */
  lemma {:induction false} JoinSnoc(sep: char, fs: seq<string>, x: string)
    ensures Join(sep, fs + [x]) == if fs == [] then x else Join(sep, fs) + [sep] + x
  {
    if |fs| == 1 {
      assert (fs + [x])[1..] == [x];
    } else if |fs| > 1 {
      assert (fs + [x])[1..] == fs[1..] + [x];
      JoinSnoc(sep, fs[1..], x);
    }
  }

  /** Empty fields after a non-empty list contribute only their separators. */
  lemma {:induction false} JoinPad(sep: char, fs: seq<string>, m: nat)
    requires fs != []
    ensures Join(sep, fs + Empties(m)) == Join(sep, fs) + Seps(sep, m)
  {
    if m == 0 {
      assert fs + Empties(m) == fs;
    } else {
      assert fs + Empties(m) == (fs + Empties(m - 1)) + [[]];
      JoinSnoc(sep, fs + Empties(m - 1), []);
      JoinPad(sep, fs, m - 1);
      assert Seps(sep, m - 1) + [sep] == Seps(sep, m);
    }
  }

  /** m >= 1 empty fields are joined by m - 1 separators. */
  lemma JoinEmpties(sep: char, m: nat)
    requires m >= 1
    ensures Join(sep, Empties(m)) == Seps(sep, m - 1)
  {
    assert Empties(m) == Empties(1) + Empties(m - 1);
    JoinPad(sep, Empties(1), m - 1);
  }

  /**
    The strings without the trailing empty ones, as the pop_back loops of
    the writer and the filter leave them: a prefix whose last entry is not
    empty, followed in the original only by empty strings.
  */
  function TrimEmpty(s: seq<string>): (r: seq<string>)
    ensures |r| <= |s| && r == s[..|r|]
    ensures r != [] ==> r[|r| - 1] != []
    ensures forall i :: |r| <= i < |s| ==> s[i] == []
  {
    if s == [] then []
    else if s[|s| - 1] == [] then TrimEmpty(s[..|s| - 1])
    else s
  }

  /** Regrouping a concatenation: the step that Writer.WriteRowsCons, RoundTrip.LineOfCells, ParserRows.CellEventsCons and ConvertGrid's FeedWrites and FeedRowsWrites take. */
  lemma ConcatAssoc<T>(a: seq<T>, b: seq<T>, c: seq<T>)
    ensures a + (b + c) == a + b + c
  {
  }
}
