/**
  Whole lines read by the csvparser.hpp state machine: a line is a list of
  fields, each written in one of the three shapes the machine accepts
  (nothing, unquoted text, quoted text, each with optional surrounding
  spaces), separated by the separator and ended by a newline. Reading such
  a line from Start makes exactly the begin_row / cell / end_row calls of
  the row, and the test vector of tst_csv.cpp follows line by line.
*/
module ParserRows {
  import opened CsvBase
  import opened CsvParser
  import opened ParserFacts

  /** How one field is spelled in the input. */
  datatype FieldText =
    | Blank(lead: nat)                            // only spaces: a NULL cell
    | Plain(lead: nat, text: string, trail: nat)  // unquoted text, then spaces
    | Quote(lead: nat, body: string, trail: nat)  // a quoted cell between spaces

  /** The spellings the machine reads as one field: unquoted text starts with a non-space and holds no quote, separator or newline. */
  ghost predicate WellFormed(qchar: char, sep: char, f: FieldText)
  {
    f.Plain? ==> f.text != [] && f.text[0] != ' ' && UnquotedText(qchar, sep, f.text)
  }

  /** The bytes of field f followed by the delimiter d. */
  function FieldBytes(qchar: char, f: FieldText, d: char): string
  {
    match f
    case Blank(n) => Spaces(n) + [d]
    case Plain(n, t, k) => Spaces(n) + (t + Spaces(k) + [d])
    case Quote(n, s, k) => Spaces(n) + (Quoted(qchar, s) + (Spaces(k) + [d]))
  }

  /** The cell the builder receives for field f. */
  function Value(f: FieldText): Cell
  {
    match f
    case Blank(_) => None
    case Plain(_, t, k) => Some(t + Spaces(k))
    case Quote(_, s, _) => Some(s)
  }

  /** Any well-formed field, read from ReadSkipPre, gives its Value and then the delimiter's calls. */
  lemma FieldRun(qchar: char, sep: char, m: Machine, f: FieldText, d: char)
    requires Consistent(m) && m.state == ReadSkipPre && m.error.None?
    requires qchar != ' ' && sep != ' ' && Delimiter(qchar, sep, d) && WellFormed(qchar, sep, f)
    ensures Run(qchar, sep, m, FieldBytes(qchar, f, d))
            == Outcome(FieldDone(m, sep, d, Value(f)), |FieldBytes(qchar, f, d)|, false)
  {
    match f
    case Blank(n) => NullField(qchar, sep, m, n, d);
    case Plain(n, t, k) => UnquotedField(qchar, sep, m, n, t, k, d);
    case Quote(n, s, k) => QuotedField(qchar, sep, m, n, s, k, d);
  }

  /** A line of fields: separators between them, a newline after the last. */
  function LineBytes(qchar: char, sep: char, fs: seq<FieldText>): string
    requires fs != []
  {
    if |fs| == 1 then FieldBytes(qchar, fs[0], '\n')
    else FieldBytes(qchar, fs[0], sep) + LineBytes(qchar, sep, fs[1..])
  }

  /** The cells of a line, in order. */
  function Values(fs: seq<FieldText>): (cs: seq<Cell>)
    ensures |cs| == |fs| && forall i :: 0 <= i < |fs| ==> cs[i] == Value(fs[i])
  {
    if fs == [] then [] else [Value(fs[0])] + Values(fs[1..])
  }

  /** The quote, separator and newline are distinct, and neither quote nor separator is a space. */
  ghost predicate Dialect(qchar: char, sep: char)
  {
    qchar != ' ' && sep != ' ' && qchar != sep && qchar != '\n' && sep != '\n'
  }

  /**
    From ReadSkipPre, a line of well-formed fields makes one cell call per
    field, in order, then end_row, and leaves the machine in Start.
  */
  lemma {:induction false} LineRun(qchar: char, sep: char, m: Machine, fs: seq<FieldText>)
    requires Dialect(qchar, sep)
    requires Consistent(m) && m.state == ReadSkipPre && m.error.None?
    requires fs != [] && forall i :: 0 <= i < |fs| ==> WellFormed(qchar, sep, fs[i])
    ensures Run(qchar, sep, m, LineBytes(qchar, sep, fs))
            == Outcome(m.(state := Start, out := m.out + CellEvents(Values(fs)) + [EndRow]),
                       |LineBytes(qchar, sep, fs)|, false)
    decreases |fs|
  {
    if |fs| == 1 {
      FieldRun(qchar, sep, m, fs[0], '\n');
      assert CellEvents(Values(fs)) == [CellEvent(Value(fs[0]))];
    } else {
      var m1 := FieldDone(m, sep, sep, Value(fs[0]));
      var m2 := m1.(state := Start, out := m1.out + CellEvents(Values(fs[1..])) + [EndRow]);
      var a := FieldBytes(qchar, fs[0], sep);
      var b := LineBytes(qchar, sep, fs[1..]);
      assert Run(qchar, sep, m, a) == Outcome(m1, |a|, false) by {
        FieldRun(qchar, sep, m, fs[0], sep);
      }
      assert Run(qchar, sep, m1, b) == Outcome(m2, |b|, false) by {
        LineRun(qchar, sep, m1, fs[1..]);
      }
      RunChain(qchar, sep, m, a, m1, b, m2);
      LineEventsCons(m.out, sep, fs);
    }
  }

  lemma CellEventsCons(out: seq<Event>, fs: seq<FieldText>)
    requires |fs| > 1
    ensures out + [CellEvent(Value(fs[0]))] + CellEvents(Values(fs[1..])) + [EndRow]
            == out + CellEvents(Values(fs)) + [EndRow]
  {
    var v := Value(fs[0]);
    var rest := Values(fs[1..]);
    assert CellEvents(Values(fs)) == [CellEvent(v)] + CellEvents(rest) by {
      assert Values(fs) == [v] + rest;
      CellEventsAppend([v], rest);
    }
    ConcatAssoc(out, [CellEvent(v)], CellEvents(rest));
  }

  /** The calls of a line are those of its first field followed by those of the rest. */
  lemma LineEventsCons(out: seq<Event>, sep: char, fs: seq<FieldText>)
    requires |fs| > 1
    ensures out + [CellEvent(Value(fs[0]))] + DelimiterEvents(sep, sep) + CellEvents(Values(fs[1..])) + [EndRow]
            == out + CellEvents(Values(fs)) + [EndRow]
  {
    CellEventsCons(out, fs);
    assert out + [CellEvent(Value(fs[0]))] + DelimiterEvents(sep, sep) == out + [CellEvent(Value(fs[0]))];
  }

  /** In Start, a run that does not begin with a newline is one that begins with begin_row in ReadSkipPre. */
  lemma RunStartOpensRow(qchar: char, sep: char, m: Machine, bytes: seq<char>)
    requires Consistent(m) && m.state == Start
    requires bytes != [] && !Classify(qchar, sep, bytes[0]).Enewline?
    ensures Run(qchar, sep, m, bytes)
            == Run(qchar, sep, m.(state := ReadSkipPre, out := m.out + [BeginRow]), bytes)
  {
    StartOpensRow(m, Classify(qchar, sep, bytes[0]));
  }

  /**
    The calls for a line read from Start: a lone newline is a row with no
    cells; any other line of well-formed fields is begin_row, one cell per
    field, end_row.
  */
  lemma StartLine(qchar: char, sep: char, m: Machine, fs: seq<FieldText>)
    requires Dialect(qchar, sep)
    requires Consistent(m) && m.state == Start
    requires fs != [] && forall i :: 0 <= i < |fs| ==> WellFormed(qchar, sep, fs[i])
    ensures var line := LineBytes(qchar, sep, fs);
      Run(qchar, sep, m, line)
      == Outcome(m.(out := m.out + RowEvents(if line == "\n" then [] else Values(fs))), |line|, false)
  {
    var line := LineBytes(qchar, sep, fs);
    if line == "\n" {
      BlankLine(qchar, sep, m);
      RowEventsAfter(m.out, []);
    } else {
      var p := m.(state := ReadSkipPre, out := m.out + [BeginRow]);
      var done := p.(state := Start, out := p.out + CellEvents(Values(fs)) + [EndRow]);
      assert Run(qchar, sep, m, line) == Run(qchar, sep, p, line) by {
        LeadingNewline(qchar, sep, fs);
        RunStartOpensRow(qchar, sep, m, line);
      }
      assert Run(qchar, sep, p, line) == Outcome(done, |line|, false) by {
        LineRun(qchar, sep, p, fs);
      }
      RowEventsAfter(m.out, Values(fs));
    }
  }

  /** A line begins with a newline only when it is the lone newline of a single blank field with no spaces. */
  lemma LeadingNewline(qchar: char, sep: char, fs: seq<FieldText>)
    requires Dialect(qchar, sep) && fs != []
    requires forall i :: 0 <= i < |fs| ==> WellFormed(qchar, sep, fs[i])
    ensures var line := LineBytes(qchar, sep, fs);
      line != [] && (line[0] == '\n' ==> line == "\n")
  {
    var f := fs[0];
    var d := if |fs| == 1 then '\n' else sep;
    var fb := FieldBytes(qchar, f, d);
    assert LineBytes(qchar, sep, fs)[..|fb|] == fb;
    match f
    case Blank(n) =>
      if n > 0 {
        assert fb[0] == ' ';
      }
    case Plain(n, t, k) =>
      if n > 0 {
        assert fb[0] == ' ';
      } else {
        assert fb[0] == t[0];
      }
    case Quote(n, s, k) =>
      if n > 0 {
        assert fb[0] == ' ';
      } else {
        assert fb[0] == qchar;
      }
  }

  /** Lines one after another. */
  function LinesBytes(qchar: char, sep: char, ls: seq<seq<FieldText>>): string
    requires forall j :: 0 <= j < |ls| ==> ls[j] != []
  {
    if ls == [] then [] else LineBytes(qchar, sep, ls[0]) + LinesBytes(qchar, sep, ls[1..])
  }

  /** The row a line is read as. */
  function LineRow(qchar: char, sep: char, fs: seq<FieldText>): seq<Cell>
    requires fs != []
  {
    if LineBytes(qchar, sep, fs) == "\n" then [] else Values(fs)
  }

  function LinesRows(qchar: char, sep: char, ls: seq<seq<FieldText>>): seq<seq<Cell>>
    requires forall j :: 0 <= j < |ls| ==> ls[j] != []
  {
    if ls == [] then [] else [LineRow(qchar, sep, ls[0])] + LinesRows(qchar, sep, ls[1..])
  }

  /**
    A fresh-line machine reading whole lines makes exactly the calls of the
    rows they spell, and ends back in Start without an error.
  */
  lemma {:induction false} LinesRun(qchar: char, sep: char, m: Machine, ls: seq<seq<FieldText>>)
    requires Dialect(qchar, sep)
    requires Consistent(m) && m.state == Start
    requires forall j :: 0 <= j < |ls| ==> ls[j] != []
    requires forall j, i :: 0 <= j < |ls| && 0 <= i < |ls[j]| ==> WellFormed(qchar, sep, ls[j][i])
    ensures Run(qchar, sep, m, LinesBytes(qchar, sep, ls))
            == Outcome(m.(out := m.out + TableEvents(LinesRows(qchar, sep, ls))),
                       |LinesBytes(qchar, sep, ls)|, false)
    decreases |ls|
  {
    if ls != [] {
      var m1 := m.(out := m.out + RowEvents(LineRow(qchar, sep, ls[0])));
      var m2 := m1.(out := m1.out + TableEvents(LinesRows(qchar, sep, ls[1..])));
      var a := LineBytes(qchar, sep, ls[0]);
      var b := LinesBytes(qchar, sep, ls[1..]);
      assert Run(qchar, sep, m, a) == Outcome(m1, |a|, false) by {
        StartLine(qchar, sep, m, ls[0]);
      }
      assert Run(qchar, sep, m1, b) == Outcome(m2, |b|, false) by {
        LinesRun(qchar, sep, m1, ls[1..]);
      }
      RunChain(qchar, sep, m, a, m1, b, m2);
      TableEventsCons(m.out, LineRow(qchar, sep, ls[0]), LinesRows(qchar, sep, ls[1..]));
    }
  }

  lemma LineBytesCons(qchar: char, sep: char, f: FieldText, fs: seq<FieldText>)
    requires fs != []
    ensures LineBytes(qchar, sep, [f] + fs) == FieldBytes(qchar, f, sep) + LineBytes(qchar, sep, fs)
  {
    assert ([f] + fs)[1..] == fs;
  }

  lemma LinesBytesCons(qchar: char, sep: char, l: seq<FieldText>, ls: seq<seq<FieldText>>)
    requires l != [] && forall j :: 0 <= j < |ls| ==> ls[j] != []
    ensures LinesBytes(qchar, sep, [l] + ls) == LineBytes(qchar, sep, l) + LinesBytes(qchar, sep, ls)
    ensures LinesRows(qchar, sep, [l] + ls) == [LineRow(qchar, sep, l)] + LinesRows(qchar, sep, ls)
  {
    assert ([l] + ls)[1..] == ls;
  }

  lemma Regroup4<T>(a: seq<T>, b: seq<T>, c: seq<T>, d: seq<T>)
    ensures a + b + c + d == a + (b + (c + (d + [])))
  {
  }

  /** An unquoted field without trailing spaces reads as exactly its text. */
  lemma PlainField(qchar: char, n: nat, t: string, d: char)
    ensures FieldBytes(qchar, Plain(n, t, 0), d) == Spaces(n) + t + [d]
    ensures Value(Plain(n, t, 0)) == Some(t)
  {
    assert t + Spaces(0) == t;
  }

  // The four lines of the tst_csv.cpp scenario, field by field.

  lemma Line3Bytes(qchar: char, sep: char, a: FieldText, b: FieldText, c: FieldText)
    ensures LineBytes(qchar, sep, [a] + ([b] + [c]))
            == FieldBytes(qchar, a, sep) + (FieldBytes(qchar, b, sep) + FieldBytes(qchar, c, '\n'))
  {
    LineBytesCons(qchar, sep, b, [c]);
    LineBytesCons(qchar, sep, a, [b] + [c]);
  }

  lemma Line4Bytes(qchar: char, sep: char, a: FieldText, b: FieldText, c: FieldText, d: FieldText)
    ensures LineBytes(qchar, sep, [a] + ([b] + ([c] + [d])))
            == FieldBytes(qchar, a, sep) + (FieldBytes(qchar, b, sep) + (FieldBytes(qchar, c, sep) + FieldBytes(qchar, d, '\n')))
  {
    LineBytesCons(qchar, sep, a, [b] + ([c] + [d]));
    Line3Bytes(qchar, sep, b, c, d);
  }

  lemma Line5Bytes(qchar: char, sep: char, a: FieldText, b: FieldText, c: FieldText, d: FieldText, e: FieldText)
    ensures LineBytes(qchar, sep, [a] + ([b] + ([c] + ([d] + [e]))))
            == FieldBytes(qchar, a, sep) + (FieldBytes(qchar, b, sep) + (FieldBytes(qchar, c, sep)
               + (FieldBytes(qchar, d, sep) + FieldBytes(qchar, e, '\n'))))
  {
    LineBytesCons(qchar, sep, a, [b] + ([c] + ([d] + [e])));
    Line4Bytes(qchar, sep, b, c, d, e);
  }

  lemma TestLine2(a: FieldText, b: FieldText, c: FieldText, d: FieldText)
    requires a == Plain(0, "1", 0) && b == Quote(1, "s", 1) && c == Plain(1, "3", 0) && d == Plain(0, "4   a", 0)
    ensures LineBytes('\'', ',', [a] + ([b] + ([c] + [d]))) == "1, 's' , 3,4   a\n"
  {
    var q := '\'';
    assert FieldBytes(q, a, ',') == "1," by { PlainField(q, 0, "1", ','); }
    assert FieldBytes(q, b, ',') == " 's' ," by {
      assert Escape(q, "s") == "s" by { assert "s"[..0] == []; }
      assert Spaces(1) == " ";
    }
    assert FieldBytes(q, c, ',') == " 3," by { PlainField(q, 1, "3", ','); assert Spaces(1) == " "; }
    assert FieldBytes(q, d, '\n') == "4   a\n" by { PlainField(q, 0, "4   a", '\n'); }
    Line4Bytes(q, ',', a, b, c, d);
    Line2Text();
  }

  lemma Line2Text()
    ensures "1," + (" 's' ," + (" 3," + "4   a\n")) == "1, 's' , 3,4   a\n"
  {
  }

  lemma TestLine3(a: FieldText, b: FieldText, c: FieldText, d: FieldText, e: FieldText)
    requires a == Blank(0) && b == Plain(0, "1", 0) && c == Plain(0, "2", 0) && d == Plain(0, "3", 0)
    requires e == Plain(0, "4", 0)
    ensures LineBytes('\'', ',', [a] + ([b] + ([c] + ([d] + [e])))) == ",1,2,3,4\n"
  {
    var q := '\'';
    assert FieldBytes(q, a, ',') == ",";
    assert FieldBytes(q, b, ',') == "1," by { PlainField(q, 0, "1", ','); }
    assert FieldBytes(q, c, ',') == "2," by { PlainField(q, 0, "2", ','); }
    assert FieldBytes(q, d, ',') == "3," by { PlainField(q, 0, "3", ','); }
    assert FieldBytes(q, e, '\n') == "4\n" by { PlainField(q, 0, "4", '\n'); }
    Line5Bytes(q, ',', a, b, c, d, e);
    Line3Text();
  }

  lemma Line3Text()
    ensures "," + ("1," + ("2," + ("3," + "4\n"))) == ",1,2,3,4\n"
  {
  }

  /** A single quote character inside text without other quotes is doubled. */
  lemma QuotedSplice(q: char, x: string, y: string)
    requires forall i :: 0 <= i < |x| ==> x[i] != q
    requires forall i :: 0 <= i < |y| ==> y[i] != q
    ensures Quoted(q, x + [q] + y) == [q] + x + [q, q] + y + [q]
  {
    var xq := x + [q];
    assert Escape(q, xq) == x + [q, q] by {
      assert xq[..|xq| - 1] == x;
      EscapeWithoutQuote(q, x);
    }
    assert Escape(q, xq + y) == x + [q, q] + y by {
      EscapeAppend(q, xq, y);
      EscapeWithoutQuote(q, y);
    }
  }

  lemma TestQuotedField(b: FieldText)
    requires b == Quote(1, "asd'df", 0)
    ensures FieldBytes('\'', b, ',') == " 'asd''df',"
  {
    var q := '\'';
    assert "asd'df" == "asd" + [q] + "df";
    QuotedSplice(q, "asd", "df");
    assert Spaces(1) == " " && Spaces(0) == "";
  }

  lemma TestLine4(a: FieldText, b: FieldText, c: FieldText)
    requires a == Plain(1, "asdf", 0) && b == Quote(1, "asd'df", 0) && c == Plain(1, "s", 0)
    ensures LineBytes('\'', ',', [a] + ([b] + [c])) == " asdf, 'asd''df', s\n"
  {
    var q := '\'';
    Line3Bytes(q, ',', a, b, c);
    assert FieldBytes(q, a, ',') == " asdf," by { PlainField(q, 1, "asdf", ','); assert Spaces(1) == " "; }
    assert FieldBytes(q, b, ',') == " 'asd''df'," by { TestQuotedField(b); }
    assert FieldBytes(q, c, '\n') == " s\n" by { PlainField(q, 1, "s", '\n'); assert Spaces(1) == " "; }
    Line4Text();
  }

  lemma Line4Text()
    ensures " asdf," + (" 'asd''df'," + " s\n") == " asdf, 'asd''df', s\n"
  {
  }

  lemma TestRow2(a: FieldText, b: FieldText, c: FieldText, d: FieldText)
    requires a == Plain(0, "1", 0) && b == Quote(1, "s", 1) && c == Plain(1, "3", 0) && d == Plain(0, "4   a", 0)
    ensures Values([a] + ([b] + ([c] + [d]))) == [Some("1"), Some("s"), Some("3"), Some("4   a")]
    ensures var l := [a] + ([b] + ([c] + [d])); forall i :: 0 <= i < |l| ==> WellFormed('\'', ',', l[i])
  {
    PlainField('\'', 0, "1", ',');
    PlainField('\'', 1, "3", ',');
    PlainField('\'', 0, "4   a", '\n');
    var l := [a] + ([b] + ([c] + [d]));
    assert l == [a, b, c, d];
  }

  lemma TestRow3(a: FieldText, b: FieldText, c: FieldText, d: FieldText, e: FieldText)
    requires a == Blank(0) && b == Plain(0, "1", 0) && c == Plain(0, "2", 0) && d == Plain(0, "3", 0)
    requires e == Plain(0, "4", 0)
    ensures Values([a] + ([b] + ([c] + ([d] + [e])))) == [None, Some("1"), Some("2"), Some("3"), Some("4")]
    ensures var l := [a] + ([b] + ([c] + ([d] + [e]))); forall i :: 0 <= i < |l| ==> WellFormed('\'', ',', l[i])
  {
    PlainField('\'', 0, "1", ',');
    PlainField('\'', 0, "2", ',');
    PlainField('\'', 0, "3", ',');
    PlainField('\'', 0, "4", '\n');
    var l := [a] + ([b] + ([c] + ([d] + [e])));
    assert l == [a, b, c, d, e];
  }

  lemma TestRow4(a: FieldText, b: FieldText, c: FieldText)
    requires a == Plain(1, "asdf", 0) && b == Quote(1, "asd'df", 0) && c == Plain(1, "s", 0)
    ensures Values([a] + ([b] + [c])) == [Some("asdf"), Some("asd'df"), Some("s")]
    ensures var l := [a] + ([b] + [c]); forall i :: 0 <= i < |l| ==> WellFormed('\'', ',', l[i])
  {
    PlainField('\'', 1, "asdf", ',');
    PlainField('\'', 1, "s", '\n');
    var l := [a] + ([b] + [c]);
    assert l == [a, b, c];
  }

  /** The four lines of the scenario, spelled as fields, with the rows they stand for. */
  lemma TestLines(ls: seq<seq<FieldText>>)
    requires ls == [[Blank(0)]]
                   + ([[Plain(0, "1", 0)] + ([Quote(1, "s", 1)] + ([Plain(1, "3", 0)] + [Plain(0, "4   a", 0)]))]
                   + ([[Blank(0)] + ([Plain(0, "1", 0)] + ([Plain(0, "2", 0)] + ([Plain(0, "3", 0)] + [Plain(0, "4", 0)])))]
                   + [[Plain(1, "asdf", 0)] + ([Quote(1, "asd'df", 0)] + [Plain(1, "s", 0)])]))
    ensures forall j :: 0 <= j < |ls| ==> ls[j] != []
    ensures forall j, i :: 0 <= j < |ls| && 0 <= i < |ls[j]| ==> WellFormed('\'', ',', ls[j][i])
    ensures LinesBytes('\'', ',', ls)
            == "\n" + ("1, 's' , 3,4   a\n" + (",1,2,3,4\n" + (" asdf, 'asd''df', s\n" + [])))
    ensures LinesRows('\'', ',', ls) == [[], [Some("1"), Some("s"), Some("3"), Some("4   a")],
                                         [None, Some("1"), Some("2"), Some("3"), Some("4")],
                                         [Some("asdf"), Some("asd'df"), Some("s")]]
  {
    var l1, l2, l3, l4 := ls[0], ls[1], ls[2], ls[3];
    TestLine2(Plain(0, "1", 0), Quote(1, "s", 1), Plain(1, "3", 0), Plain(0, "4   a", 0));
    TestLine3(Blank(0), Plain(0, "1", 0), Plain(0, "2", 0), Plain(0, "3", 0), Plain(0, "4", 0));
    TestLine4(Plain(1, "asdf", 0), Quote(1, "asd'df", 0), Plain(1, "s", 0));
    TestRow2(Plain(0, "1", 0), Quote(1, "s", 1), Plain(1, "3", 0), Plain(0, "4   a", 0));
    TestRow3(Blank(0), Plain(0, "1", 0), Plain(0, "2", 0), Plain(0, "3", 0), Plain(0, "4", 0));
    TestRow4(Plain(1, "asdf", 0), Quote(1, "asd'df", 0), Plain(1, "s", 0));
    assert LineBytes('\'', ',', l1) == "\n";
    assert ls == [l1] + ([l2] + ([l3] + [l4]));
    LinesBytesCons('\'', ',', l4, []);
    LinesBytesCons('\'', ',', l3, [l4]);
    LinesBytesCons('\'', ',', l2, [l3] + [l4]);
    LinesBytesCons('\'', ',', l1, [l2] + ([l3] + [l4]));
  }

  /**
    The scenario of tst_csv.cpp: with the quote character ' the four lines
    give a row with no cells, a row of unquoted cells (the inner spaces of
    "4   a" kept), a row starting with a NULL cell, and a row with a doubled
    quote read as one.
  */
  lemma TestVector()
    ensures var r := Run('\'', ',', Initial(), "\n" + "1, 's' , 3,4   a\n" + ",1,2,3,4\n" + " asdf, 'asd''df', s\n");
      && !r.failed
      && r.machine.out == TableEvents([[], [Some("1"), Some("s"), Some("3"), Some("4   a")],
                                       [None, Some("1"), Some("2"), Some("3"), Some("4")],
                                       [Some("asdf"), Some("asd'df"), Some("s")]])
  {
    var ls := [[Blank(0)]]
              + ([[Plain(0, "1", 0)] + ([Quote(1, "s", 1)] + ([Plain(1, "3", 0)] + [Plain(0, "4   a", 0)]))]
              + ([[Blank(0)] + ([Plain(0, "1", 0)] + ([Plain(0, "2", 0)] + ([Plain(0, "3", 0)] + [Plain(0, "4", 0)])))]
              + [[Plain(1, "asdf", 0)] + ([Quote(1, "asd'df", 0)] + [Plain(1, "s", 0)])]));
    TestLines(ls);
    LinesRun('\'', ',', Initial(), ls);
    Regroup4("\n", "1, 's' , 3,4   a\n", ",1,2,3,4\n", " asdf, 'asd''df', s\n");
  }
}
