/**
  Properties of the csvparser.hpp state machine: how a whole field is read
  (quoted, unquoted or empty), how whitespace is kept or dropped, sticky
  errors, row framing, and that feeding the stream in chunks is the same as
  feeding it at once.
*/
module ParserFacts {
  import opened CsvBase
  import opened CsvParser

  /** n spaces. */
  function Spaces(n: nat): (s: string)
    ensures |s| == n && forall i :: 0 <= i < n ==> s[i] == ' '
  {
    if n == 0 then [] else Spaces(n - 1) + [' ']
  }

  /** Run carried on from where another run stopped, with positions counted from the start. */
  function Continue(first: Outcome, qchar: char, sep: char, rest: seq<char>): Outcome
  {
    if first.failed then first
    else
      var r := Run(qchar, sep, first.machine, rest);
      r.(consumed := r.consumed + first.consumed)
  }

  /**
    Chunked input behaves as one stream: running a + b is running a and then,
    unless a already failed, running b from the machine a left behind.
  */
  lemma {:induction false} RunAppend(qchar: char, sep: char, m: Machine, a: seq<char>, b: seq<char>)
    ensures Run(qchar, sep, m, a + b) == Continue(Run(qchar, sep, m, a), qchar, sep, b)
    decreases |a|
  {
    if a == [] {
      assert a + b == b;
    } else {
      assert (a + b)[0] == a[0];
      assert (a + b)[1..] == a[1..] + b;
      var m1 := Step(m, Classify(qchar, sep, a[0]));
      if m1.error.None? {
        RunAppend(qchar, sep, m1, a[1..], b);
      }
    }
  }

  /** The byte a call stops on is the first one whose transition sets an error. */
  lemma RunStopsAtFirstError(qchar: char, sep: char, m: Machine, bytes: seq<char>)
    requires Run(qchar, sep, m, bytes).failed
    ensures var k := Run(qchar, sep, m, bytes).consumed;
      var before := Run(qchar, sep, m, bytes[..k]);
      && !before.failed
      && Step(before.machine, Classify(qchar, sep, bytes[k])).error.Some?
  {
    var r := Run(qchar, sep, m, bytes);
    var k := r.consumed;
    assert bytes == bytes[..k] + bytes[k..];
    RunAppend(qchar, sep, m, bytes[..k], bytes[k..]);
  }

  /** Once in ReadError nothing changes, and every further call fails on its first byte. */
  lemma ErrorIsSticky(qchar: char, sep: char, m: Machine, bytes: seq<char>)
    requires Consistent(m) && m.state == ReadError
    ensures Run(qchar, sep, m, bytes) == Outcome(m, 0, bytes != [])
  {
  }

  /**
    Inside a quoted cell every byte except the quote is appended verbatim
    (separators, newlines and spaces included), and a doubled quote appends
    exactly one quote: reading Escape(qchar, s) appends s.
  */
  lemma {:induction false} RunQuotedBody(qchar: char, sep: char, m: Machine, s: string)
    requires m.state == ReadQuoted && m.error.None?
    ensures Run(qchar, sep, m, Escape(qchar, s))
            == Outcome(m.(cell := m.cell + s), |Escape(qchar, s)|, false)
    decreases |s|
  {
    if s != [] {
      var init := s[..|s| - 1];
      var c := s[|s| - 1];
      RunQuotedBody(qchar, sep, m, init);
      var m1 := m.(cell := m.cell + init);
      var m2 := m1.(cell := m1.cell + [c]);
      if c == qchar {
        var mc := m1.(state := ReadQuotedCheckEscape);
        RunOne(qchar, sep, m1, qchar);
        RunOne(qchar, sep, mc, qchar);
        RunAppend(qchar, sep, m1, [qchar], [qchar]);
        assert Run(qchar, sep, m1, [qchar, qchar]) == Outcome(m2, 2, false) by {
          assert [qchar] + [qchar] == [qchar, qchar];
        }
      } else {
        RunOne(qchar, sep, m1, c);
        assert Run(qchar, sep, m1, [c]) == Outcome(m2, 1, false);
      }
      RunAppend(qchar, sep, m, Escape(qchar, init), if c == qchar then [qchar, qchar] else [c]);
      assert m.cell + init + [c] == m.cell + s;
    }
  }

  /** Running a single byte is one step. */
  lemma RunOne(qchar: char, sep: char, m: Machine, c: char)
    ensures var m1 := Step(m, Classify(qchar, sep, c));
      Run(qchar, sep, m, [c]) == if m1.error.Some? then Outcome(m1, 0, true) else Outcome(m1, 1, false)
  {
    assert [c][1..] == [];
  }

  /** Spaces before a field, and spaces after a closing quote, are dropped. */
  lemma {:induction false} RunSpacesSkipped(qchar: char, sep: char, m: Machine, n: nat)
    requires m.state == ReadSkipPre || m.state == ReadQuotedSkipPost
    requires qchar != ' ' && sep != ' ' && m.error.None?
    ensures Run(qchar, sep, m, Spaces(n)) == Outcome(m, n, false)
  {
    if n > 0 {
      RunSpacesSkipped(qchar, sep, m, n - 1);
      RunAppend(qchar, sep, m, Spaces(n - 1), [' ']);
    }
  }

  /** Whatever follows them, spaces in ReadSkipPre are stepped over without any effect. */
  lemma SpacesThen(qchar: char, sep: char, m: Machine, n: nat, x: seq<char>)
    requires m.state == ReadSkipPre && m.error.None? && qchar != ' ' && sep != ' '
    ensures Run(qchar, sep, m, Spaces(n) + x)
            == var r := Run(qchar, sep, m, x); r.(consumed := r.consumed + n)
  {
    RunSpacesSkipped(qchar, sep, m, n);
    RunAppend(qchar, sep, m, Spaces(n), x);
  }

  /** The bytes an unquoted field may hold: no quote, separator or newline. */
  ghost predicate UnquotedText(qchar: char, sep: char, t: string)
  {
    forall i :: 0 <= i < |t| ==> t[i] != qchar && t[i] != sep && t[i] != '\n'
  }

  /**
    Inside an unquoted cell, spaces are only remembered, but they are kept:
    buffer plus pending whitespace grows by exactly the bytes read, and a
    cell that ends in a non-space byte has nothing pending.
  */
  lemma {:induction false} RunUnquotedText(qchar: char, sep: char, m: Machine, t: string)
    requires Consistent(m) && (m.state == ReadUnquoted || m.state == ReadUnquotedWhitespace)
    requires UnquotedText(qchar, sep, t)
    ensures var r := Run(qchar, sep, m, t);
      && !r.failed
      && Consistent(r.machine)
      && (r.machine.state == ReadUnquoted || r.machine.state == ReadUnquotedWhitespace)
      && r.machine.cell + r.machine.whitespace == m.cell + m.whitespace + t
      && r.machine.out == m.out
      && (t != [] && t[|t| - 1] != ' ' ==> r.machine.state == ReadUnquoted)
      && (t == [] ==> r.machine == m)
    decreases |t|
  {
    if t != [] {
      var init := t[..|t| - 1];
      var c := t[|t| - 1];
      RunUnquotedText(qchar, sep, m, init);
      var mi := Run(qchar, sep, m, init).machine;
      UnquotedByte(qchar, sep, mi, c);
      RunAppend(qchar, sep, m, init, [c]);
      assert init + [c] == t;
    }
  }

  /** One byte of unquoted text: appended to the buffer, or remembered if it is a space. */
  lemma UnquotedByte(qchar: char, sep: char, m: Machine, c: char)
    requires Consistent(m) && (m.state == ReadUnquoted || m.state == ReadUnquotedWhitespace)
    requires c != qchar && c != sep && c != '\n'
    ensures var r := Run(qchar, sep, m, [c]);
      && !r.failed && r.consumed == 1
      && Consistent(r.machine)
      && r.machine.state == (if c == ' ' then ReadUnquotedWhitespace else ReadUnquoted)
      && r.machine.cell + r.machine.whitespace == m.cell + m.whitespace + [c]
      && r.machine.out == m.out
  {
    RunOne(qchar, sep, m, c);
    var e := Classify(qchar, sep, c);
    assert e == (if c == ' ' then Ewhitespace(c) else Echar(c));
  }

  /** Which state a delimiter byte leads to once a field is complete. */
  function AfterDelimiter(sep: char, d: char): State
  {
    if d == sep then ReadSkipPre else Start
  }

  /** The calls a delimiter makes after the cell: end_row for a newline. */
  function DelimiterEvents(sep: char, d: char): seq<Event>
  {
    if d == sep then [] else [EndRow]
  }

  /** A field read from ReadSkipPre and ended by d leaves this machine behind. */
  function FieldDone(m: Machine, sep: char, d: char, c: Cell): Machine
  {
    m.(state := AfterDelimiter(sep, d), cell := [], whitespace := [],
       out := m.out + [CellEvent(c)] + DelimiterEvents(sep, d))
  }

  /** The delimiters that end a field: the separator, or a newline that is not a separator. */
  ghost predicate Delimiter(qchar: char, sep: char, d: char)
  {
    d != qchar && d != ' ' && (d == sep || d == '\n')
  }

  /** A field with no content: (spaces and then) a delimiter gives a NULL cell. */
  lemma NullField(qchar: char, sep: char, m: Machine, n: nat, d: char)
    requires Consistent(m) && m.state == ReadSkipPre && m.error.None?
    requires qchar != ' ' && sep != ' ' && Delimiter(qchar, sep, d)
    ensures Run(qchar, sep, m, Spaces(n) + [d]) == Outcome(FieldDone(m, sep, d, None), n + 1, false)
  {
    SpacesThen(qchar, sep, m, n, [d]);
    RunOne(qchar, sep, m, d);
  }

  /** Two runs that both consume everything compose. */
  lemma RunChain(qchar: char, sep: char, m: Machine, a: seq<char>, ma: Machine, b: seq<char>, mb: Machine)
    requires Run(qchar, sep, m, a) == Outcome(ma, |a|, false)
    requires Run(qchar, sep, ma, b) == Outcome(mb, |b|, false)
    ensures Run(qchar, sep, m, a + b) == Outcome(mb, |a + b|, false)
  {
    RunAppend(qchar, sep, m, a, b);
  }

  /** The delimiter after an unquoted cell emits buffer and pending whitespace together. */
  lemma EndUnquoted(qchar: char, sep: char, m: Machine, mb: Machine, c: string, d: char)
    requires Consistent(mb) && (mb.state == ReadUnquoted || mb.state == ReadUnquotedWhitespace)
    requires mb.out == m.out && m.error.None? && mb.cell + mb.whitespace == c
    requires Delimiter(qchar, sep, d)
    ensures Run(qchar, sep, mb, [d]) == Outcome(FieldDone(m, sep, d, Some(c)), |[d]|, false)
  {
    RunOne(qchar, sep, mb, d);
    var e := Classify(qchar, sep, d);
    assert e == if d == sep then Esep(d) else Enewline(d);
    var done := FieldDone(m, sep, d, Some(c));
    if mb.state == ReadUnquoted {
      assert mb.whitespace == [] && mb.cell == c;
      assert Step(mb, e) == done;
    } else {
      assert Step(mb, e) == done;
    }
  }

  /** Reading the bytes of an unquoted cell from ReadSkipPre keeps all of them. */
  lemma UnquotedBody(qchar: char, sep: char, m: Machine, t: string, k: nat)
    requires Consistent(m) && m.state == ReadSkipPre && m.error.None?
    requires qchar != ' ' && sep != ' '
    requires t != [] && t[0] != ' ' && UnquotedText(qchar, sep, t)
    ensures var r := Run(qchar, sep, m, t + Spaces(k));
      && r.consumed == |t| + k && !r.failed
      && Consistent(r.machine)
      && (r.machine.state == ReadUnquoted || r.machine.state == ReadUnquotedWhitespace)
      && r.machine.cell + r.machine.whitespace == t + Spaces(k)
      && r.machine.out == m.out
  {
    var m1 := m.(state := ReadUnquoted, cell := [t[0]]);
    assert Run(qchar, sep, m, [t[0]]) == Outcome(m1, 1, false) by {
      RunOne(qchar, sep, m, t[0]);
    }
    var body := t[1..] + Spaces(k);
    assert UnquotedText(qchar, sep, body) by {
      forall i | 0 <= i < |body| ensures body[i] != qchar && body[i] != sep && body[i] != '\n' {
        if i < |t| - 1 { assert body[i] == t[i + 1]; } else { assert body[i] == ' '; }
      }
    }
    RunUnquotedText(qchar, sep, m1, body);
    var mb := Run(qchar, sep, m1, body).machine;
    RunChain(qchar, sep, m, [t[0]], m1, body, mb);
    assert [t[0]] + body == t + Spaces(k);
  }

  /** An unquoted cell and its delimiter, read from ReadSkipPre. */
  lemma UnquotedRest(qchar: char, sep: char, m: Machine, t: string, k: nat, d: char)
    requires Consistent(m) && m.state == ReadSkipPre && m.error.None?
    requires qchar != ' ' && sep != ' ' && Delimiter(qchar, sep, d)
    requires t != [] && t[0] != ' ' && UnquotedText(qchar, sep, t)
    ensures Run(qchar, sep, m, t + Spaces(k) + [d])
            == Outcome(FieldDone(m, sep, d, Some(t + Spaces(k))), |t| + k + 1, false)
  {
    var body := t + Spaces(k);
    var mb := Run(qchar, sep, m, body).machine;
    var done := FieldDone(m, sep, d, Some(body));
    assert Run(qchar, sep, mb, [d]) == Outcome(done, |[d]|, false) by {
      UnquotedBody(qchar, sep, m, t, k);
      EndUnquoted(qchar, sep, m, mb, body, d);
    }
    assert Run(qchar, sep, m, body) == Outcome(mb, |body|, false);
    RunChain(qchar, sep, m, body, mb, [d], done);
  }

  /**
    An unquoted field: leading spaces are dropped, interior and trailing
    spaces are kept, and the cell is never NULL.
  */
  lemma UnquotedField(qchar: char, sep: char, m: Machine, n: nat, t: string, k: nat, d: char)
    requires Consistent(m) && m.state == ReadSkipPre && m.error.None?
    requires qchar != ' ' && sep != ' ' && Delimiter(qchar, sep, d)
    requires t != [] && t[0] != ' ' && UnquotedText(qchar, sep, t)
    ensures Run(qchar, sep, m, Spaces(n) + (t + Spaces(k) + [d]))
            == Outcome(FieldDone(m, sep, d, Some(t + Spaces(k))), n + |t| + k + 1, false)
  {
    UnquotedRest(qchar, sep, m, t, k, d);
    SpacesThen(qchar, sep, m, n, t + Spaces(k) + [d]);
  }

  /** Three runs that each consume everything compose. */
  lemma RunChain3(qchar: char, sep: char, m: Machine, a: seq<char>, ma: Machine,
                  b: seq<char>, mb: Machine, c: seq<char>, mc: Machine)
    requires Run(qchar, sep, m, a) == Outcome(ma, |a|, false)
    requires Run(qchar, sep, ma, b) == Outcome(mb, |b|, false)
    requires Run(qchar, sep, mb, c) == Outcome(mc, |c|, false)
    ensures Run(qchar, sep, m, a + b + c) == Outcome(mc, |a| + |b| + |c|, false)
  {
    RunChain(qchar, sep, m, a, ma, b, mb);
    RunChain(qchar, sep, m, a + b, mb, c, mc);
  }

  /** From ReadSkipPre, a quoted cell leaves its unescaped body in the buffer. */
  lemma QuotedBody(qchar: char, sep: char, m: Machine, s: string)
    requires m.state == ReadSkipPre && m.error.None? && m.cell == []
    ensures Run(qchar, sep, m, Quoted(qchar, s))
            == Outcome(m.(state := ReadQuotedCheckEscape, cell := s), |Quoted(qchar, s)|, false)
  {
    var mq := m.(state := ReadQuoted);
    var mq1 := mq.(cell := s);
    var mc := mq1.(state := ReadQuotedCheckEscape);
    assert Run(qchar, sep, m, [qchar]) == Outcome(mq, |[qchar]|, false) by {
      RunOne(qchar, sep, m, qchar);
    }
    assert Run(qchar, sep, mq, Escape(qchar, s)) == Outcome(mq1, |Escape(qchar, s)|, false) by {
      RunQuotedBody(qchar, sep, mq, s);
    }
    assert Run(qchar, sep, mq1, [qchar]) == Outcome(mc, |[qchar]|, false) by {
      RunOne(qchar, sep, mq1, qchar);
    }
    RunChain3(qchar, sep, m, [qchar], mq, Escape(qchar, s), mq1, [qchar], mc);
  }

  /** After a possible closing quote, spaces are dropped (moving to ReadQuotedSkipPost). */
  lemma SpacesAfterQuote(qchar: char, sep: char, mc: Machine, k: nat)
    requires mc.state == ReadQuotedCheckEscape && mc.error.None?
    requires qchar != ' ' && sep != ' '
    ensures Run(qchar, sep, mc, Spaces(k))
            == Outcome(if k == 0 then mc else mc.(state := ReadQuotedSkipPost), k, false)
  {
    if k > 0 {
      var mp := mc.(state := ReadQuotedSkipPost);
      assert Spaces(k) == [' '] + Spaces(k - 1) by {
        assert Spaces(k)[1..] == Spaces(k - 1);
      }
      RunOne(qchar, sep, mc, ' ');
      RunSpacesSkipped(qchar, sep, mp, k - 1);
      RunChain(qchar, sep, mc, [' '], mp, Spaces(k - 1), mp);
    }
  }

  /** After a closing quote, spaces and then a delimiter emit the buffered cell. */
  lemma QuotedTail(qchar: char, sep: char, mc: Machine, k: nat, d: char)
    requires mc.state == ReadQuotedCheckEscape && mc.error.None? && mc.whitespace == []
    requires qchar != ' ' && sep != ' ' && Delimiter(qchar, sep, d)
    ensures Run(qchar, sep, mc, Spaces(k) + [d])
            == Outcome(FieldDone(mc, sep, d, Some(mc.cell)), k + 1, false)
  {
    var mp := if k == 0 then mc else mc.(state := ReadQuotedSkipPost);
    SpacesAfterQuote(qchar, sep, mc, k);
    assert Run(qchar, sep, mp, [d]) == Outcome(FieldDone(mc, sep, d, Some(mc.cell)), 1, false) by {
      RunOne(qchar, sep, mp, d);
    }
    RunChain(qchar, sep, mc, Spaces(k), mp, [d], FieldDone(mc, sep, d, Some(mc.cell)));
  }

  /**
    A quoted field: spaces before the opening quote and after the closing
    quote are dropped, the body is unescaped, and the cell is never NULL,
    even when the body is empty.
  */
  lemma QuotedField(qchar: char, sep: char, m: Machine, n: nat, s: string, k: nat, d: char)
    requires Consistent(m) && m.state == ReadSkipPre && m.error.None?
    requires qchar != ' ' && sep != ' ' && Delimiter(qchar, sep, d)
    ensures Run(qchar, sep, m, Spaces(n) + (Quoted(qchar, s) + (Spaces(k) + [d])))
            == Outcome(FieldDone(m, sep, d, Some(s)), n + |Quoted(qchar, s)| + k + 1, false)
  {
    var mc := m.(state := ReadQuotedCheckEscape, cell := s);
    QuotedBody(qchar, sep, m, s);
    QuotedTail(qchar, sep, mc, k, d);
    assert FieldDone(mc, sep, d, Some(s)) == FieldDone(m, sep, d, Some(s));
    RunChain(qchar, sep, m, Quoted(qchar, s), mc, Spaces(k) + [d], FieldDone(m, sep, d, Some(s)));
    SpacesThen(qchar, sep, m, n, Quoted(qchar, s) + (Spaces(k) + [d]));
  }

  /**
    The first byte of a line in Start opens a row: for every byte but a
    newline, Start behaves as ReadSkipPre after a begin_row call.
  */
  lemma StartOpensRow(m: Machine, e: Input)
    requires Consistent(m) && m.state == Start && !e.Enewline?
    ensures Step(m, e) == Step(m.(state := ReadSkipPre, out := m.out + [BeginRow]), e)
  {
  }

  /** A bare newline in Start is a row with no cells: begin_row, end_row. */
  lemma BlankLine(qchar: char, sep: char, m: Machine)
    requires Consistent(m) && m.state == Start && qchar != '\n' && sep != '\n'
    ensures Run(qchar, sep, m, "\n") == Outcome(m.(out := m.out + [BeginRow, EndRow]), 1, false)
  {
  }

  /** Every unquoted newline closes the row with exactly one end_row and returns to Start. */
  lemma NewlineEndsRow(m: Machine, c: char)
    requires Consistent(m) && m.state != ReadQuoted && m.state != ReadError
    ensures var m' := Step(m, Enewline(c));
      && m'.state == Start && m'.cell == [] && m'.whitespace == []
      && |m'.out| > |m.out|
      && m'.out[|m'.out| - 1] == EndRow
      && forall i :: |m.out| <= i < |m'.out| - 1 ==> m'.out[i] != EndRow
  {
  }

  /** Any other byte in a quoted cell, a newline included, makes no builder call. */
  lemma QuotedMakesNoCalls(m: Machine, e: Input)
    requires m.state == ReadQuoted
    ensures Step(m, e).out == m.out
  {
  }

  /** The errors of the table: a quote in or after an unquoted cell, and a byte after a closing quote. */
  lemma ErrorEntries(m: Machine, c: char)
    ensures Step(m.(state := ReadUnquoted), Eqchar(c)).error == Some(QuoteInUnquoted)
    ensures Step(m.(state := ReadUnquotedWhitespace), Eqchar(c)).error == Some(QuoteAfterUnquoted)
    ensures Step(m.(state := ReadQuotedCheckEscape), Echar(c)).error == Some(CharAfterPossibleEndquote)
    ensures Step(m.(state := ReadQuotedSkipPost), Echar(c)).error == Some(CharAfterEndquote)
    ensures Step(m.(state := ReadQuotedSkipPost), Eqchar(c)).error == Some(QuoteAfterEndquote)
  {
  }
}
