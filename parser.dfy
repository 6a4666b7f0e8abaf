/**
  The character-by-character CSV parser of the root csvparser.hpp: an
  eight-state machine over five kinds of input byte. The choice of the next
  state is the pure table NextState; the transition actions (append to the
  cell, remember or flush whitespace, call the builder, set the error
  message) are those of class Trans; class Parser holds the current state
  and feeds bytes to Trans until the first error.

  The csv_builder the parser drives is modelled as the trace of calls it
  receives (Trans.out).
*/
module CsvParser {
  import opened CsvBase

  datatype State =
    | Start
    | ReadSkipPre
    | ReadQuoted
    | ReadQuotedCheckEscape
    | ReadQuotedSkipPost
    | ReadUnquoted
    | ReadUnquotedWhitespace
    | ReadError

  /** The five events; each carries the byte it was made from. */
  datatype Input =
    | Eqchar(value: char)
    | Esep(value: char)
    | Ewhitespace(value: char)
    | Enewline(value: char)
    | Echar(value: char)

  const CharAfterPossibleEndquote := "char after possible endquote"
  const QuoteAfterEndquote := "quote after endquote"
  const CharAfterEndquote := "char after endquote"
  const QuoteInUnquoted := "unexpected quote in unquoted string"
  const QuoteAfterUnquoted := "unexpected quote after unquoted string"

  /**
    The event made from byte b. The tests are tried in order: quote
    character, separator, a space (only ' '; a tab is an ordinary byte),
    newline; anything else is an ordinary byte.
  */
  function Classify(qchar: char, sep: char, b: char): (e: Input)
    ensures e.value == b
    ensures e.Eqchar? <==> b == qchar
    ensures e.Esep? <==> b != qchar && b == sep
    ensures e.Ewhitespace? <==> b != qchar && b != sep && b == ' '
    ensures e.Enewline? <==> b != qchar && b != sep && b != ' ' && b == '\n'
    ensures e.Echar? <==> b != qchar && b != sep && b != ' ' && b != '\n'
  {
    if b == qchar then Eqchar(b)
    else if b == sep then Esep(b)
    else if b == ' ' then Ewhitespace(b)
    else if b == '\n' then Enewline(b)
    else Echar(b)
  }

  /** The Next_State column of the transition table. */
  function NextState(s: State, e: Input): State
  {
    match s
    case Start =>
      (match e
       case Eqchar(_) => ReadQuoted
       case Esep(_) => ReadSkipPre
       case Enewline(_) => Start
       case Ewhitespace(_) => ReadSkipPre
       case Echar(_) => ReadUnquoted)
    case ReadSkipPre =>
      (match e
       case Eqchar(_) => ReadQuoted
       case Esep(_) => ReadSkipPre
       case Enewline(_) => Start
       case Ewhitespace(_) => ReadSkipPre
       case Echar(_) => ReadUnquoted)
    case ReadQuoted =>
      if e.Eqchar? then ReadQuotedCheckEscape else ReadQuoted
    case ReadQuotedCheckEscape =>
      (match e
       case Eqchar(_) => ReadQuoted
       case Esep(_) => ReadSkipPre
       case Enewline(_) => Start
       case Ewhitespace(_) => ReadQuotedSkipPost
       case Echar(_) => ReadError)
    case ReadQuotedSkipPost =>
      (match e
       case Eqchar(_) => ReadError
       case Esep(_) => ReadSkipPre
       case Enewline(_) => Start
       case Ewhitespace(_) => ReadQuotedSkipPost
       case Echar(_) => ReadError)
    case ReadUnquoted =>
      (match e
       case Eqchar(_) => ReadError
       case Esep(_) => ReadSkipPre
       case Enewline(_) => Start
       case Ewhitespace(_) => ReadUnquotedWhitespace
       case Echar(_) => ReadUnquoted)
    case ReadUnquotedWhitespace =>
      (match e
       case Eqchar(_) => ReadError
       case Esep(_) => ReadSkipPre
       case Enewline(_) => Start
       case Ewhitespace(_) => ReadUnquotedWhitespace
       case Echar(_) => ReadUnquoted)
    case ReadError => ReadError
  }

  /**
    Everything the machine holds between two bytes: the state, Trans's cell
    buffer, its pending whitespace, its sticky error message, and the calls
    made on the builder so far.
  */
  datatype Machine = Machine(state: State, cell: string, whitespace: string,
                             error: Option<string>, out: seq<Event>)

  /** A fresh parser: state Start, empty buffers, no error, no calls yet. */
  function Initial(): Machine
  {
    Machine(Start, [], [], None, [])
  }

  /**
    What holds of the machine between bytes: no cell text is pending in
    Start and ReadSkipPre (so next_cell(false) finds the buffer empty, as
    the source asserts), whitespace is pending exactly in
    ReadUnquotedWhitespace (or after an error), and an error message is
    set exactly in ReadError.
  */
  ghost predicate Consistent(m: Machine)
  {
    && (m.state == Start || m.state == ReadSkipPre ==> m.cell == [])
    && (m.state != ReadUnquotedWhitespace && m.state != ReadError ==> m.whitespace == [])
    && (m.state == ReadUnquotedWhitespace ==> m.whitespace != [])
    && (m.state == ReadError <==> m.error.Some?)
  }

  // The transition actions, on values.

  function Add(m: Machine, c: char): Machine
  {
    m.(cell := m.cell + [c])
  }

  function RememberWhitespace(m: Machine, c: char): Machine
  {
    m.(whitespace := m.whitespace + [c])
  }

  function AddWhitespace(m: Machine): Machine
  {
    m.(cell := m.cell + m.whitespace, whitespace := [])
  }

  /** Emit the cell: the buffer when it has content, else NULL; then clear it. */
  function NextCell(m: Machine, hasContent: bool): Machine
  {
    m.(out := m.out + [CellEvent(if hasContent then Some(m.cell) else None)], cell := [])
  }

  function Emit(m: Machine, ev: Event): Machine
  {
    m.(out := m.out + [ev])
  }

  function Fail(m: Machine, message: string): Machine
  {
    m.(error := Some(message))
  }

  /** The Transition_Action column of the table, applied in state m.state. */
  function Act(m: Machine, e: Input): Machine
  {
    match m.state
    case Start =>
      var b := Emit(m, BeginRow);
      (match e
       case Eqchar(_) => b
       case Esep(_) => NextCell(b, false)
       case Enewline(_) => Emit(b, EndRow)
       case Ewhitespace(_) => b
       case Echar(c) => Add(b, c))
    case ReadSkipPre =>
      (match e
       case Eqchar(_) => m
       case Esep(_) => NextCell(m, false)
       case Enewline(_) => Emit(NextCell(m, false), EndRow)
       case Ewhitespace(_) => m
       case Echar(c) => Add(m, c))
    case ReadQuoted =>
      if e.Eqchar? then m else Add(m, e.value)
    case ReadQuotedCheckEscape =>
      (match e
       case Eqchar(c) => Add(m, c)
       case Esep(_) => NextCell(m, true)
       case Enewline(_) => Emit(NextCell(m, true), EndRow)
       case Ewhitespace(_) => m
       case Echar(_) => Fail(m, CharAfterPossibleEndquote))
    case ReadQuotedSkipPost =>
      (match e
       case Eqchar(_) => Fail(m, QuoteAfterEndquote)
       case Esep(_) => NextCell(m, true)
       case Enewline(_) => Emit(NextCell(m, true), EndRow)
       case Ewhitespace(_) => m
       case Echar(_) => Fail(m, CharAfterEndquote))
    case ReadUnquoted =>
      (match e
       case Eqchar(_) => Fail(m, QuoteInUnquoted)
       case Esep(_) => NextCell(m, true)
       case Enewline(_) => Emit(NextCell(m, true), EndRow)
       case Ewhitespace(c) => RememberWhitespace(m, c)
       case Echar(c) => Add(m, c))
    case ReadUnquotedWhitespace =>
      (match e
       case Eqchar(_) => Fail(m, QuoteAfterUnquoted)
       case Esep(_) => NextCell(AddWhitespace(m), true)
       case Enewline(_) => Emit(NextCell(AddWhitespace(m), true), EndRow)
       case Ewhitespace(c) => RememberWhitespace(m, c)
       case Echar(c) => Add(AddWhitespace(m), c))
    case ReadError => m
  }

  /**
    One transition (Trans::on followed by the parser's state update). It
    keeps the machine consistent, never clears an error, and only ever
    appends to the builder's trace.
  */
  function Step(m: Machine, e: Input): (m': Machine)
    ensures m'.state == NextState(m.state, e)
    ensures Consistent(m) ==> Consistent(m')
    ensures Consistent(m) && m.error.Some? ==> m'.error == m.error
    ensures |m.out| <= |m'.out| && m'.out[..|m.out|] == m.out
  {
    Act(m, e).(state := NextState(m.state, e))
  }

  /** The result of one call of csvparser::operator(). */
  datatype Outcome = Outcome(machine: Machine, consumed: nat, failed: bool)

  /**
    Feed bytes until they run out or a transition leaves an error message
    set. consumed counts the bytes stepped over without error (the buffer
    position is left on the erroring byte); failed is the return value.
  */
  function Run(qchar: char, sep: char, m: Machine, bytes: seq<char>): (r: Outcome)
    ensures r.consumed <= |bytes|
    ensures !r.failed ==> r.consumed == |bytes|
    ensures r.failed ==> r.consumed < |bytes| && r.machine.error.Some?
    ensures !r.failed && m.error.None? ==> r.machine.error.None?
    ensures Consistent(m) ==> Consistent(r.machine)
    decreases |bytes|
  {
    if bytes == [] then Outcome(m, 0, false)
    else
      var m1 := Step(m, Classify(qchar, sep, bytes[0]));
      if m1.error.Some? then Outcome(m1, 0, true)
      else
        var r := Run(qchar, sep, m1, bytes[1..]);
        r.(consumed := r.consumed + 1)
  }

  /** Trans: the transition actions, which update the cell buffer, the
      pending whitespace and the error message, and call the builder. */
  class Trans {
    var errorMessage: Option<string>
    var whitespace: string
    var cell: string
    /** The calls made on the builder, in order. */
    var out: seq<Event>

    constructor ()
      ensures errorMessage == None && whitespace == [] && cell == [] && out == []
    {
      errorMessage, whitespace, cell, out := None, [], [], [];
    }

    /** The whole machine, given the state the parser holds. */
    function Snapshot(s: State): Machine
      reads this
    {
      Machine(s, cell, whitespace, errorMessage, out)
    }

    method Add(c: char)
      modifies this
      ensures cell == old(cell) + [c]
      ensures whitespace == old(whitespace) && errorMessage == old(errorMessage) && out == old(out)
    {
      cell := cell + [c];
    }

    method RememberWhitespace(c: char)
      modifies this
      ensures whitespace == old(whitespace) + [c]
      ensures cell == old(cell) && errorMessage == old(errorMessage) && out == old(out)
    {
      whitespace := whitespace + [c];
    }

    method AddWhitespace()
      modifies this
      ensures cell == old(cell) + old(whitespace) && whitespace == []
      ensures errorMessage == old(errorMessage) && out == old(out)
    {
      cell := cell + whitespace;
      whitespace := [];
    }

    /** A cell without content is reported as NULL and must find the buffer empty. */
    method NextCell(hasContent: bool)
      requires !hasContent ==> cell == []
      modifies this
      ensures out == old(out) + [CellEvent(if hasContent then Some(old(cell)) else None)] && cell == []
      ensures whitespace == old(whitespace) && errorMessage == old(errorMessage)
    {
      if hasContent {
        out := out + [CellEvent(Some(cell))];
      } else {
        out := out + [CellEvent(None)];
      }
      cell := [];
    }

    method Emit(ev: Event)
      modifies this
      ensures out == old(out) + [ev]
      ensures cell == old(cell) && whitespace == old(whitespace) && errorMessage == old(errorMessage)
    {
      out := out + [ev];
    }

    /** Trans::on: perform the action of the table entry (s, e) and return the next state. */
    method On(s: State, e: Input) returns (next: State)
      requires Consistent(Snapshot(s))
      modifies this
      ensures next == NextState(s, e)
      ensures Snapshot(next) == Step(old(Snapshot(s)), e)
    {
      match s {
        case Start =>
          Emit(BeginRow);
          match e {
            case Eqchar(_) =>
            case Esep(_) => NextCell(false);
            case Enewline(_) => Emit(EndRow);
            case Ewhitespace(_) =>
            case Echar(c) => Add(c);
          }
        case ReadSkipPre =>
          match e {
            case Eqchar(_) =>
            case Esep(_) => NextCell(false);
            case Enewline(_) => NextCell(false); Emit(EndRow);
            case Ewhitespace(_) =>
            case Echar(c) => Add(c);
          }
        case ReadQuoted =>
          if !e.Eqchar? {
            Add(e.value);
          }
        case ReadQuotedCheckEscape =>
          match e {
            case Eqchar(c) => Add(c);
            case Esep(_) => NextCell(true);
            case Enewline(_) => NextCell(true); Emit(EndRow);
            case Ewhitespace(_) =>
            case Echar(_) => errorMessage := Some(CharAfterPossibleEndquote);
          }
        case ReadQuotedSkipPost =>
          match e {
            case Eqchar(_) => errorMessage := Some(QuoteAfterEndquote);
            case Esep(_) => NextCell(true);
            case Enewline(_) => NextCell(true); Emit(EndRow);
            case Ewhitespace(_) =>
            case Echar(_) => errorMessage := Some(CharAfterEndquote);
          }
        case ReadUnquoted =>
          match e {
            case Eqchar(_) => errorMessage := Some(QuoteInUnquoted);
            case Esep(_) => NextCell(true);
            case Enewline(_) => NextCell(true); Emit(EndRow);
            case Ewhitespace(c) => RememberWhitespace(c);
            case Echar(c) => Add(c);
          }
        case ReadUnquotedWhitespace =>
          match e {
            case Eqchar(_) => errorMessage := Some(QuoteAfterUnquoted);
            case Esep(_) => AddWhitespace(); NextCell(true);
            case Enewline(_) => AddWhitespace(); NextCell(true); Emit(EndRow);
            case Ewhitespace(c) => RememberWhitespace(c);
            case Echar(c) => AddWhitespace(); Add(c);
          }
        case ReadError =>
          assert errorMessage.Some?;
      }
      next := NextState(s, e);
    }
  }

  /** csvparser: the configured quote and separator, the current state, and the sticky error. */
  class Parser {
    const qchar: char
    const sep: char
    var errmsg: Option<string>
    var state: State
    const trans: Trans

    ghost predicate Valid()
      reads this, trans
    {
      Consistent(trans.Snapshot(state)) && errmsg == trans.errorMessage
    }

    function Snapshot(): Machine
      reads this, trans
    {
      trans.Snapshot(state)
    }

    constructor (qchar: char, sep: char)
      ensures Valid() && fresh(trans)
      ensures this.qchar == qchar && this.sep == sep
      ensures Snapshot() == Initial()
    {
      this.qchar := qchar;
      this.sep := sep;
      errmsg := None;
      state := Start;
      trans := new Trans();
    }

    /**
      operator()(buf, len): classify and step each byte in turn. On the first
      byte whose transition leaves an error set, record the message and return
      true with pos on that byte; otherwise consume every byte and return
      false. The state and buffers stay in the object, so a later call
      continues the same stream.
    */
    method Process(buf: seq<char>) returns (failed: bool, pos: nat)
      requires Valid()
      modifies this, trans
      ensures Valid()
      ensures Outcome(Snapshot(), pos, failed) == Run(qchar, sep, old(Snapshot()), buf)
      ensures failed <==> errmsg.Some? && (pos < |buf|)
    {
      pos := 0;
      while pos < |buf|
        invariant Valid()
        invariant pos <= |buf|
        invariant Run(qchar, sep, old(Snapshot()), buf)
                  == var r := Run(qchar, sep, Snapshot(), buf[pos..]); r.(consumed := r.consumed + pos)
      {
        assert buf[pos..][1..] == buf[pos + 1..];
        state := trans.On(state, Classify(qchar, sep, buf[pos]));
        if trans.errorMessage.Some? {
          errmsg := trans.errorMessage;
          failed := true;
          return;
        }
        pos := pos + 1;
      }
      failed := false;
    }

    /** operator()(line): process a whole string; the position is not reported. */
    method ProcessLine(line: string) returns (failed: bool)
      requires Valid()
      modifies this, trans
      ensures Valid()
      ensures failed == Run(qchar, sep, old(Snapshot()), line).failed
      ensures Snapshot() == Run(qchar, sep, old(Snapshot()), line).machine
    {
      var pos;
      failed, pos := Process(line);
    }

    /** error(): the message of the first error, if any. */
    function Error(): (r: Option<string>)
      requires Valid()
      reads this, trans
      ensures r.Some? <==> state == ReadError
      ensures r == Snapshot().error
    {
      errmsg
    }
  }
}
