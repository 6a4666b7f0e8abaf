/**
  The configuration side of the filter tool (filter/filter.cpp): the
  str_equal comparison, the spreadsheet column decoder column_ascii_2_index
  with the inverse kept in the source as a comment, and ConfigBuilder, the
  per-cell builder that reads the config csv, enforces the order of its
  labelled lines and fills the configuration vectors.

  A cell reaches the builder as its text; a NULL cell is taken as the empty
  text, which is what str_equal and std::string(begin, 0) make of it.
*/
module FilterConfig {
  import opened CsvBase

  /** SIZE_MAX for a 64-bit size_t. */
  const SizeMax: nat := 0xFFFF_FFFF_FFFF_FFFF

  // ---------------------------------------------------------------------
  // str_equal

  /** strncmp(a, b, n) == 0: the first n bytes agree, or agree up to a NUL both hold. */
  function StrncmpZero(a: string, b: string, n: nat): bool
    requires n <= |a| && n <= |b|
    decreases n
  {
    n == 0 || (a[0] == b[0] && (a[0] == '\0' || StrncmpZero(a[1..], b[1..], n - 1)))
  }

  /** The four-argument str_equal: equal lengths, then strncmp over that length. */
  function StrEqual(a: string, b: string): bool
  {
    |a| == |b| && StrncmpZero(a, b, |a|)
  }

  /** strlen: the number of bytes before the first NUL. */
  function CLength(a: string): (n: nat)
    ensures n <= |a|
    ensures forall i :: 0 <= i < n ==> a[i] != '\0'
    ensures n < |a| ==> a[n] == '\0'
  {
    if a == [] || a[0] == '\0' then 0 else 1 + CLength(a[1..])
  }

  /** The three-argument str_equal: a NUL-terminated string against a span. */
  function StrEqualC(lit: string, b: string): bool
  {
    StrEqual(lit[..CLength(lit)], b)
  }

  predicate NoNul(s: string)
  {
    forall i :: 0 <= i < |s| ==> s[i] != '\0'
  }

  lemma {:induction false} StrncmpExact(a: string, b: string, n: nat)
    requires n <= |a| && n <= |b|
    requires forall i :: 0 <= i < n ==> a[i] != '\0'
    ensures StrncmpZero(a, b, n) <==> forall i :: 0 <= i < n ==> a[i] == b[i]
    decreases n
  {
    if n > 0 {
      assert forall i :: 0 <= i < n - 1 ==> a[1..][i] == a[i + 1] && b[1..][i] == b[i + 1];
      StrncmpExact(a[1..], b[1..], n - 1);
      if forall i :: 0 <= i < n ==> a[i] == b[i] {
        assert forall i :: 0 <= i < n - 1 ==> a[1..][i] == b[1..][i];
      }
    }
  }

  /** Without a NUL in the first string, str_equal is byte-for-byte equality. */
  lemma StrEqualExact(a: string, b: string)
    requires NoNul(a)
    ensures StrEqual(a, b) <==> a == b
  {
    if |a| == |b| {
      StrncmpExact(a, b, |a|);
    }
  }

  /** Against a label without NUL, the three-argument str_equal is exact equality. */
  lemma StrEqualLiteral(lit: string, b: string)
    requires NoNul(lit)
    ensures StrEqualC(lit, b) <==> lit == b
  {
    assert CLength(lit) == |lit|;
    assert lit[..|lit|] == lit;
    StrEqualExact(lit, b);
  }

  lemma {:induction false} StrncmpRefl(a: string, n: nat)
    requires n <= |a|
    ensures StrncmpZero(a, a, n)
    decreases n
  {
    if n > 0 {
      StrncmpRefl(a[1..], n - 1);
    }
  }

  /** Every string equals itself, NUL or not. */
  lemma StrEqualRefl(a: string)
    ensures StrEqual(a, a)
  {
    StrncmpRefl(a, |a|);
  }

  /** Equal lengths and a shared NUL are enough: what follows the NUL is never compared. */
  lemma StrEqualStopsAtNul()
    ensures StrEqual("a\0x", "a\0y") && "a\0x" != "a\0y"
  {
    assert "a\0x"[1..] == "\0x" && "a\0y"[1..] == "\0y";
    assert "a\0x"[1] != "a\0y"[1] || "a\0x"[2] != "a\0y"[2];
  }

  // ---------------------------------------------------------------------
  // Spreadsheet column names

  predicate IsCapital(c: char)
  {
    'A' <= c <= 'Z'
  }

  predicate AllCapitals(s: string)
  {
    forall i :: 0 <= i < |s| ==> IsCapital(s[i])
  }

  /** The bijective base-26 value of a run of capitals: "A" is 1, "Z" 26, "AA" 27. */
  function Base26(s: string): nat
    requires AllCapitals(s)
  {
    if s == [] then 0
    else Base26(s[..|s| - 1]) * 26 + (s[|s| - 1] as int - 'A' as int + 1)
  }

  /**
    What column_ascii_2_index returns or throws: at most three capitals,
    read in bijective base 26 and decremented in size_t arithmetic, so that
    the empty string wraps around to SIZE_MAX.
  */
  function ColumnIndex(s: string): Result<nat>
  {
    if |s| > 3 || !AllCapitals(s) then Err("Invalid spreadsheet column " + s)
    else Ok((Base26(s) - 1) % (SizeMax + 1))
  }

  /** column_ascii_2_index, with its accumulator loop. */
  method ColumnAsciiToIndex(s: string) returns (r: Result<nat>)
    ensures r == ColumnIndex(s)
  {
    if |s| > 3 {
      return Err("Invalid spreadsheet column " + s);
    }
    var colidx: nat := 0;
    var i := 0;
    while i < |s|
      invariant 0 <= i <= |s| && AllCapitals(s[..i]) && colidx == Base26(s[..i])
    {
      var cidx := s[i] as int - 'A' as int;
      if cidx < 0 || cidx >= 26 {
        assert !IsCapital(s[i]) && !AllCapitals(s);
        return Err("Invalid spreadsheet column " + s);
      }
      assert s[..i + 1][..i] == s[..i];
      colidx := colidx * 26 + (cidx + 1);
      i := i + 1;
    }
    assert s[..|s|] == s;
    Base26Bound(s);
    assert MaxBase26(|s|) <= MaxBase26(3);
    if colidx == 0 {
      r := Ok(SizeMax);
    } else {
      r := Ok(colidx - 1);
    }
  }

  /**
    The numeral for m >= 1 in bijective base 26, as the commented-out
    index_2_column_ascii builds it for column m - 1: the last letter is
    'A' + (m - 1) % 26 and the rest is the numeral for (m - 1) / 26.
  */
  function Letters(m: nat): (r: string)
    requires m >= 1
    ensures r != [] && AllCapitals(r)
    decreases m
  {
    (if (m - 1) / 26 == 0 then [] else Letters((m - 1) / 26)) + [('A' as int + (m - 1) % 26) as char]
  }

  /** index_2_column_ascii: the name of the zero-based column col. */
  function ColumnName(col: nat): string
  {
    Letters(col + 1)
  }

  lemma {:induction false} Base26Letters(m: nat)
    requires m >= 1
    ensures Base26(Letters(m)) == m
    decreases m
  {
    var q, d := (m - 1) / 26, (m - 1) % 26;
    var r := Letters(m);
    var p := if q == 0 then [] else Letters(q);
    assert r == p + [('A' as int + d) as char];
    assert r[..|r| - 1] == p;
    if q > 0 {
      Base26Letters(q);
    }
  }

  /** Division by 26 undoes one base-26 digit: the step LettersBase26 takes for one more letter. */
  lemma DivMod26(q: nat, d: nat)
    requires d < 26
    ensures (q * 26 + d) / 26 == q && (q * 26 + d) % 26 == d
  {
  }

  lemma {:induction false} LettersBase26(s: string)
    requires s != [] && AllCapitals(s)
    ensures Base26(s) >= 1 && Letters(Base26(s)) == s
    decreases |s|
  {
    var p := s[..|s| - 1];
    var v := s[|s| - 1] as int - 'A' as int;
    assert Base26(s) == Base26(p) * 26 + v + 1;
    DivMod26(Base26(p), v);
    if p != [] {
      LettersBase26(p);
    } else {
      assert Base26(p) == 0;
    }
    assert s == p + [s[|s| - 1]];
  }

  /** The largest value of k capitals: "Z", "ZZ", "ZZZ". */
  function MaxBase26(k: nat): nat
  {
    if k == 0 then 0 else MaxBase26(k - 1) * 26 + 26
  }

  lemma {:induction false} Base26Bound(s: string)
    requires AllCapitals(s)
    ensures Base26(s) <= MaxBase26(|s|)
    decreases |s|
  {
    if s != [] {
      Base26Bound(s[..|s| - 1]);
    }
  }

  lemma {:induction false} LettersLength(m: nat, k: nat)
    requires 1 <= m <= MaxBase26(k)
    ensures |Letters(m)| <= k
    decreases k
  {
    var q := (m - 1) / 26;
    if q > 0 {
      LettersLength(q, k - 1);
    }
  }

  /**
    Decoding a name gives back the column it names, for every column a
    name of at most three letters can reach, "A" (0) to "ZZZ" (18277).
  */
  lemma ColumnIndexOfName(col: nat)
    requires col < MaxBase26(3)
    ensures ColumnIndex(ColumnName(col)) == Ok(col)
  {
    Base26Letters(col + 1);
    LettersLength(col + 1, 3);
  }

  /** A name that decodes is the name of the column it decodes to. */
  lemma ColumnNameOfIndex(s: string)
    requires s != [] && ColumnIndex(s).Ok?
    ensures ColumnIndex(s).value < MaxBase26(3)
    ensures ColumnName(ColumnIndex(s).value) == s
  {
    LettersBase26(s);
    Base26Bound(s);
    assert MaxBase26(|s|) <= MaxBase26(3);
  }

  /** The error cases and the values the tool's documentation uses. */
  lemma ColumnIndexExamples()
    ensures ColumnIndex("A") == Ok(0) && ColumnIndex("Z") == Ok(25)
    ensures ColumnIndex("AA") == Ok(26) && ColumnIndex("ZZZ") == Ok(18277)
    ensures ColumnIndex("AAAA") == Err("Invalid spreadsheet column AAAA")
    ensures ColumnIndex("b") == Err("Invalid spreadsheet column b")
    ensures ColumnIndex("") == Ok(SizeMax)
  {
    assert "AA"[..1] == "A";
    assert "ZZZ"[..2] == "ZZ" && "ZZ"[..1] == "Z";
    assert !IsCapital("b"[0]);
  }

  // ---------------------------------------------------------------------
  // ConfigBuilder

  /** The labelled line the builder is in, named after its label. */
  datatype Stage = Begin | AddFilenameToRow | FilesHaveHeader | InputHeader | ExcludeBlank | ExcludeText
                 | FilterMin | FilterMax | ColumnOrder | OutputHeader | End

  /**
    Everything ConfigBuilder holds. Filter limits keep the cell text: the
    conversion by strtod is not part of this model.
  */
  datatype ConfigState = ConfigState(
    stage: Stage,
    column: nat,
    filesHaveHeader: bool,
    addFilename: bool,
    hasInputHeaders: bool,
    inputHeaders: seq<string>,
    excludeBlanks: seq<nat>,
    excludeTexts: seq<(nat, string)>,
    filterMins: seq<(nat, string)>,
    filterMaxs: seq<(nat, string)>,
    outputOrder: seq<nat>,
    outputHeader: seq<string>)

  function Initial(): ConfigState
  {
    ConfigState(Begin, 0, false, false, false, [], [], [], [], [], [], [])
  }

  /** The labels a line may start with in each stage. */
  function Allowed(stage: Stage, filesHaveHeader: bool): set<string>
  {
    match stage
    case Begin => {"Add Filename To Row"}
    case AddFilenameToRow => {"Files Have Header"}
    case FilesHaveHeader => if filesHaveHeader then {"Input Header"} else {"Input Header", "Exclude Blank"}
    case InputHeader => {"Exclude Blank"}
    case ExcludeBlank => {"Exclude Text"}
    case ExcludeText => {"Exclude Text", "Filter Min"}
    case FilterMin => {"Filter Max"}
    case FilterMax => {"Column Order"}
    case ColumnOrder => {"Output Header"}
    case OutputHeader => {}
    case End => {}
  }

  /** The stage each label opens. */
  function StageOf(tag: string): Option<Stage>
  {
    if tag == "Add Filename To Row" then Some(AddFilenameToRow)
    else if tag == "Files Have Header" then Some(FilesHaveHeader)
    else if tag == "Input Header" then Some(InputHeader)
    else if tag == "Exclude Blank" then Some(ExcludeBlank)
    else if tag == "Exclude Text" then Some(ExcludeText)
    else if tag == "Filter Min" then Some(FilterMin)
    else if tag == "Filter Max" then Some(FilterMax)
    else if tag == "Column Order" then Some(ColumnOrder)
    else if tag == "Output Header" then Some(OutputHeader)
    else None
  }

  function ExpectMessage(want: string): string
  {
    "Line should start with '" + want + "'"
  }

  function Expect(tag: string, want: string, next: Stage): Result<Stage>
  {
    if tag == want then Ok(next) else Err(ExpectMessage(want))
  }

  /**
    The first cell of a line (column 0): the label moves the builder to
    the next stage or throws. Labels are compared with str_equal against
    NUL-free literals, which StrEqualLiteral shows is exact equality.
  */
  function NextStage(stage: Stage, filesHaveHeader: bool, tag: string): Result<Stage>
  {
    match stage
    case Begin => Expect(tag, "Add Filename To Row", AddFilenameToRow)
    case AddFilenameToRow => Expect(tag, "Files Have Header", FilesHaveHeader)
    case FilesHaveHeader =>
      if tag == "Input Header" then Ok(InputHeader)
      else if filesHaveHeader then Err("Files have headers, so Line should start with 'Input Header'")
      else if tag == "Exclude Blank" then Ok(ExcludeBlank)
      else Err("Line should start with 'Input Header', or 'Exclude Blank'")
    case InputHeader => Expect(tag, "Exclude Blank", ExcludeBlank)
    case ExcludeBlank => Expect(tag, "Exclude Text", ExcludeText)
    case ExcludeText => if tag == "Exclude Text" then Ok(ExcludeText) else Expect(tag, "Filter Min", FilterMin)
    case FilterMin => Expect(tag, "Filter Max", FilterMax)
    case FilterMax => Expect(tag, "Column Order", ColumnOrder)
    case ColumnOrder => Expect(tag, "Output Header", OutputHeader)
    case OutputHeader => Err("Should never start in OutputHeader state")
    case End => Err("Found extra stuff after the last line")
  }

  /**
    The first cell of a line (column 0): the label moves the builder to
    the next stage or throws. Entering Input Header sets has_input_headers;
    leaving it trims the trailing blank input headers. Labels are compared
    with str_equal against NUL-free literals, which StrEqualLiteral shows
    is exact equality.
  */
  function LabelStep(c: ConfigState, tag: string): Result<ConfigState>
  {
    match NextStage(c.stage, c.filesHaveHeader, tag)
    case Err(m) => Err(m)
    case Ok(next) =>
      Ok(c.(stage := next,
            hasInputHeaders := c.hasInputHeaders || next == InputHeader,
            inputHeaders := if c.stage == InputHeader then TrimEmpty(c.inputHeaders) else c.inputHeaders))
  }

  /** The first position of x in s. */
  function FirstIndex(s: seq<string>, x: string): (r: Option<nat>)
    ensures r.Some? ==> r.value < |s| && s[r.value] == x && forall k :: 0 <= k < r.value ==> s[k] != x
    ensures r.None? <==> x !in s
  {
    if s == [] then None
    else if s[0] == x then Some(0)
    else match FirstIndex(s[1..], x)
      case None => None
      case Some(k) => Some(k + 1)
  }

  /** A header column past the expected headers, which a file with a header rejects. */
  predicate TooMany(c: ConfigState, hc: nat)
  {
    c.filesHaveHeader && hc >= |c.inputHeaders|
  }

  /** A Column Order cell without input headers: a spreadsheet column from B on. */
  function SpreadsheetEntry(text: string): Result<nat>
  {
    match ColumnIndex(text)
    case Err(m) => Err(m)
    case Ok(col) =>
      if col == 0 then Err("Column A is not valid, refer to columns from B onwards (ie its position in config csv)")
      else Ok(col)
  }

  /** A Column Order cell with input headers: one more than the first equal header's place. */
  function HeaderEntry(headers: seq<string>, text: string): (r: Result<nat>)
    ensures r.Ok? ==> 1 <= r.value <= |headers| && headers[r.value - 1] == text
    ensures r.Err? <==> text !in headers
  {
    match FirstIndex(headers, text)
    case None => Err("Could not find Input Header named '" + text + "'")
    case Some(k) => Ok(1 + k)
  }

  /** One Column Order cell: 0 for blank, else the one-based input column it names. */
  function OrderEntry(c: ConfigState, text: string): Result<nat>
  {
    if text == [] then Ok(0 as nat)
    else if !c.hasInputHeaders then SpreadsheetEntry(text)
    else HeaderEntry(c.inputHeaders, text)
  }

  /**
    A cell after the label (column > 0), for header column column - 1.
    parsed says whether strtod reads the whole of a Filter Min / Filter Max
    cell without setting errno; it is not consulted for the other lines.
  */
  function DataStep(c: ConfigState, text: string, parsed: bool): Result<ConfigState>
    requires c.column > 0
  {
    var hc := c.column - 1;
    match c.stage
    case Begin => Err("bad state: Begin")
    case AddFilenameToRow => Ok(if c.column == 1 then c.(addFilename := text == "TRUE") else c)
    case FilesHaveHeader => Ok(if c.column == 1 then c.(filesHaveHeader := text == "TRUE") else c)
    case InputHeader => Ok(c.(inputHeaders := c.inputHeaders + [text]))
    case ExcludeBlank =>
      if text == [] then Ok(c)
      else if TooMany(c, hc) then Err("Too many Exclude Blank entries")
      else if text == "TRUE" then Ok(c.(excludeBlanks := c.excludeBlanks + [hc]))
      else Ok(c)
    case ExcludeText =>
      if text == [] then Ok(c)
      else if TooMany(c, hc) then Err("Too many Exclude Text entries")
      else Ok(c.(excludeTexts := c.excludeTexts + [(hc, text)]))
    case FilterMin =>
      if text == [] then Ok(c)
      else if TooMany(c, hc) then Err("Too many FilterMin entries")
      else if !parsed then Err(LimitError(text))
      else Ok(c.(filterMins := c.filterMins + [(hc, text)]))
    case FilterMax =>
      if text == [] then Ok(c)
      else if TooMany(c, hc) then Err("Too many FilterMax entries")
      else if !parsed then Err(LimitError(text))
      else Ok(c.(filterMaxs := c.filterMaxs + [(hc, text)]))
    case ColumnOrder =>
      (match OrderEntry(c, text)
       case Err(m) => Err(m)
       case Ok(j) => Ok(c.(outputOrder := c.outputOrder + [j])))
    case OutputHeader => Ok(c.(outputHeader := c.outputHeader + [text]))
    case End => Err("Found extra stuff after the last line")
  }

  /** The message of an unparsable limit; the Filter Max line reuses the Filter Min wording. */
  function LimitError(text: string): string
  {
    "Error parsing FilterMin number '" + text + "'"
  }

  /** cell(): the label or the data step, then the column moves on. */
  function CellStep(c: ConfigState, text: string, parsed: bool): Result<ConfigState>
  {
    var r := if c.column == 0 then LabelStep(c, text) else DataStep(c, text, parsed);
    match r
    case Err(m) => Err(m)
    case Ok(c') => Ok(c'.(column := c.column + 1))
  }

  function BeginRowStep(c: ConfigState): ConfigState
  {
    c.(column := 0)
  }

  /** end_row(): the Output Header line is the last one. */
  function EndRowStep(c: ConfigState): ConfigState
  {
    if c.stage == OutputHeader then c.(stage := End) else c
  }

  /**
    The column numbers without the trailing zeros, as the pop_back loop
    of ensure_loaded leaves them.
  */
  function TrimZeros(s: seq<nat>): (r: seq<nat>)
    ensures |r| <= |s| && r == s[..|r|]
    ensures r != [] ==> r[|r| - 1] != 0
    ensures forall i :: |r| <= i < |s| ==> s[i] == 0
  {
    if s == [] then []
    else if s[|s| - 1] == 0 then TrimZeros(s[..|s| - 1])
    else s
  }

  /** The state ensure_loaded leaves, thrown or not: both trailing trims done. */
  function Trimmed(c: ConfigState): ConfigState
  {
    c.(outputOrder := TrimZeros(c.outputOrder), outputHeader := TrimEmpty(c.outputHeader))
  }

  /** The stages whose lines come before Exclude Blank. */
  predicate Early(stage: Stage)
  {
    stage == Begin || stage == AddFilenameToRow || stage == FilesHaveHeader || stage == InputHeader
  }

  /**
    What every state the builder reaches satisfies: the assertion of
    ensure_loaded, no entries before their lines, and, for files with a
    header, every recorded column inside the expected headers, the bound
    that FilterBuilder's map_header_to_file lookups rely on.
  */
  ghost predicate Inv(c: ConfigState)
  {
    && (c.hasInputHeaders || c.inputHeaders == [])
    && (c.column > 0 ==> c.stage != Begin)
    && (c.stage == InputHeader ==> c.hasInputHeaders)
    && (Early(c.stage) ==> c.excludeBlanks == [] && c.excludeTexts == [] && c.filterMins == []
                           && c.filterMaxs == [] && c.outputOrder == [] && c.outputHeader == [])
    && (!Early(c.stage) && c.filesHaveHeader ==> c.hasInputHeaders)
    && (c.filesHaveHeader ==>
          (forall i :: 0 <= i < |c.excludeBlanks| ==> c.excludeBlanks[i] < |c.inputHeaders|)
          && (forall i :: 0 <= i < |c.excludeTexts| ==> c.excludeTexts[i].0 < |c.inputHeaders|)
          && (forall i :: 0 <= i < |c.filterMins| ==> c.filterMins[i].0 < |c.inputHeaders|)
          && (forall i :: 0 <= i < |c.filterMaxs| ==> c.filterMaxs[i].0 < |c.inputHeaders|))
    && (c.hasInputHeaders ==> forall i :: 0 <= i < |c.outputOrder| ==> c.outputOrder[i] <= |c.inputHeaders|)
  }

  lemma InitialInv()
    ensures Inv(Initial())
  {
  }

  /** Each label names its own stage. */
  lemma StageOfLabels()
    ensures StageOf("Add Filename To Row") == Some(AddFilenameToRow)
    ensures StageOf("Files Have Header") == Some(FilesHaveHeader)
    ensures StageOf("Input Header") == Some(InputHeader)
    ensures StageOf("Exclude Blank") == Some(ExcludeBlank)
    ensures StageOf("Exclude Text") == Some(ExcludeText)
    ensures StageOf("Filter Min") == Some(FilterMin)
    ensures StageOf("Filter Max") == Some(FilterMax)
    ensures StageOf("Column Order") == Some(ColumnOrder)
    ensures StageOf("Output Header") == Some(OutputHeader)
  {
  }

  /** The transition table accepts exactly the allowed labels, each moving to the stage it names. */
  lemma NextStageOrder(stage: Stage, filesHaveHeader: bool, tag: string)
    ensures NextStage(stage, filesHaveHeader, tag).Ok? <==> tag in Allowed(stage, filesHaveHeader)
    ensures NextStage(stage, filesHaveHeader, tag).Ok? ==> Some(NextStage(stage, filesHaveHeader, tag).value) == StageOf(tag)
  {
    StageOfLabels();
    match stage {
      case Begin =>
      case AddFilenameToRow =>
      case FilesHaveHeader =>
      case InputHeader =>
      case ExcludeBlank =>
      case ExcludeText =>
      case FilterMin =>
      case FilterMax =>
      case ColumnOrder =>
      case OutputHeader =>
      case End =>
    }
  }

  /**
    A label is accepted exactly when it is one the stage allows, and it
    moves the builder to the stage it names; the entries are untouched, and
    only Input Header sets has_input_headers.
  */
  lemma LabelOrder(c: ConfigState, tag: string)
    ensures LabelStep(c, tag).Ok? <==> tag in Allowed(c.stage, c.filesHaveHeader)
    ensures LabelStep(c, tag).Ok? ==>
      var c' := LabelStep(c, tag).value;
      && Some(c'.stage) == StageOf(tag)
      && c'.hasInputHeaders == (c.hasInputHeaders || tag == "Input Header")
      && c'.filesHaveHeader == c.filesHaveHeader && c'.addFilename == c.addFilename
      && c'.excludeBlanks == c.excludeBlanks && c'.excludeTexts == c.excludeTexts
      && c'.filterMins == c.filterMins && c'.filterMaxs == c.filterMaxs
      && c'.outputOrder == c.outputOrder && c'.outputHeader == c.outputHeader
      && c'.inputHeaders == (if c.stage == InputHeader then TrimEmpty(c.inputHeaders) else c.inputHeaders)
  {
    NextStageOrder(c.stage, c.filesHaveHeader, tag);
    match NextStage(c.stage, c.filesHaveHeader, tag) {
      case Err(_) =>
      case Ok(next) =>
        assert LabelStep(c, tag).value == c.(stage := next,
          hasInputHeaders := c.hasInputHeaders || next == InputHeader,
          inputHeaders := if c.stage == InputHeader then TrimEmpty(c.inputHeaders) else c.inputHeaders);
        assert next == InputHeader <==> tag == "Input Header" by {
          StageOfLabels();
        }
    }
  }

  /** Files with a header must name them: Input Header cannot be skipped. */
  lemma HeaderLineMandatory(c: ConfigState, tag: string)
    requires c.stage == FilesHaveHeader && c.filesHaveHeader
    ensures LabelStep(c, tag).Ok? <==> tag == "Input Header"
  {
  }

  lemma LabelInv(c: ConfigState, tag: string)
    requires Inv(c) && c.column == 0
    requires LabelStep(c, tag).Ok?
    ensures Inv(LabelStep(c, tag).value.(column := 1))
  {
  }

  lemma BlankInv(c: ConfigState, text: string, parsed: bool)
    requires Inv(c) && c.column > 0 && c.stage == ExcludeBlank
    requires DataStep(c, text, parsed).Ok?
    ensures Inv(DataStep(c, text, parsed).value.(column := c.column + 1))
  {
    var c' := DataStep(c, text, parsed).value;
    assert c' == c || c' == c.(excludeBlanks := c.excludeBlanks + [c.column - 1]);
  }

  lemma TextInv(c: ConfigState, text: string, parsed: bool)
    requires Inv(c) && c.column > 0 && c.stage == ExcludeText
    requires DataStep(c, text, parsed).Ok?
    ensures Inv(DataStep(c, text, parsed).value.(column := c.column + 1))
  {
    var c' := DataStep(c, text, parsed).value;
    assert c' == c || c' == c.(excludeTexts := c.excludeTexts + [(c.column - 1, text)]);
  }

  lemma LimitInv(c: ConfigState, text: string, parsed: bool)
    requires Inv(c) && c.column > 0 && (c.stage == FilterMin || c.stage == FilterMax)
    requires DataStep(c, text, parsed).Ok?
    ensures Inv(DataStep(c, text, parsed).value.(column := c.column + 1))
  {
    var c' := DataStep(c, text, parsed).value;
    var e := (c.column - 1, text);
    assert c' == c || c' == c.(filterMins := c.filterMins + [e]) || c' == c.(filterMaxs := c.filterMaxs + [e]);
  }

  /**
    The errors of a limit cell: a non-empty cell throws exactly when its
    header column is past the input headers or strtod does not read it whole,
    the count is checked first, and both lines throw the FilterMin wording.
  */
  lemma LimitCell(c: ConfigState, text: string, parsed: bool)
    requires c.column > 0 && (c.stage == FilterMin || c.stage == FilterMax)
    ensures DataStep(c, text, parsed).Err? <==> text != [] && (TooMany(c, c.column - 1) || !parsed)
    ensures text == [] || TooMany(c, c.column - 1) ==> DataStep(c, text, parsed) == DataStep(c, text, !parsed)
    ensures text != [] && !TooMany(c, c.column - 1) && !parsed ==>
      DataStep(c, text, parsed) == Err("Error parsing FilterMin number '" + text + "'")
    ensures DataStep(c, text, parsed).Ok? ==>
      |DataStep(c, text, parsed).value.filterMins| + |DataStep(c, text, parsed).value.filterMaxs|
      == |c.filterMins| + |c.filterMaxs| + (if text == [] then 0 else 1)
  {
  }

  lemma OrderInv(c: ConfigState, text: string, parsed: bool)
    requires Inv(c) && c.column > 0 && c.stage == ColumnOrder
    requires DataStep(c, text, parsed).Ok?
    ensures Inv(DataStep(c, text, parsed).value.(column := c.column + 1))
  {
    var j := OrderEntry(c, text).value;
    assert c.hasInputHeaders ==> j <= |c.inputHeaders|;
    assert DataStep(c, text, parsed).value == c.(outputOrder := c.outputOrder + [j]);
  }

  lemma OtherDataInv(c: ConfigState, text: string, parsed: bool)
    requires Inv(c) && c.column > 0
    requires c.stage in {AddFilenameToRow, FilesHaveHeader, InputHeader, OutputHeader}
    requires DataStep(c, text, parsed).Ok?
    ensures Inv(DataStep(c, text, parsed).value.(column := c.column + 1))
  {
    var c' := DataStep(c, text, parsed).value;
    match c.stage {
      case AddFilenameToRow =>
      case FilesHaveHeader =>
        assert c' == c || c' == c.(filesHaveHeader := text == "TRUE");
      case InputHeader =>
        assert c' == c.(inputHeaders := c.inputHeaders + [text]);
      case OutputHeader =>
        assert c' == c.(outputHeader := c.outputHeader + [text]);
    }
  }

  lemma DataInv(c: ConfigState, text: string, parsed: bool)
    requires Inv(c) && c.column > 0
    requires DataStep(c, text, parsed).Ok?
    ensures Inv(DataStep(c, text, parsed).value.(column := c.column + 1))
  {
    if c.stage == ExcludeBlank {
      BlankInv(c, text, parsed);
    } else if c.stage == ExcludeText {
      TextInv(c, text, parsed);
    } else if c.stage == FilterMin || c.stage == FilterMax {
      LimitInv(c, text, parsed);
    } else if c.stage == ColumnOrder {
      OrderInv(c, text, parsed);
    } else if c.stage in {AddFilenameToRow, FilesHaveHeader, InputHeader, OutputHeader} {
      OtherDataInv(c, text, parsed);
    }
  }

  /** cell() keeps the invariant. */
  lemma CellInv(c: ConfigState, text: string, parsed: bool)
    requires Inv(c) && CellStep(c, text, parsed).Ok?
    ensures Inv(CellStep(c, text, parsed).value)
  {
    if c.column == 0 {
      LabelInv(c, text);
    } else {
      DataInv(c, text, parsed);
    }
  }

  lemma BeginRowInv(c: ConfigState)
    requires Inv(c)
    ensures Inv(BeginRowStep(c))
  {
  }

  lemma EndRowInv(c: ConfigState)
    requires Inv(c)
    ensures Inv(EndRowStep(c))
  {
  }

  lemma TrimmedInv(c: ConfigState)
    requires Inv(c)
    ensures Inv(Trimmed(c))
  {
    var t := Trimmed(c);
    assert forall i :: 0 <= i < |t.outputOrder| ==> t.outputOrder[i] == c.outputOrder[i];
  }

  /** ensure_loaded: throws unless the Output Header line was ended. */
  function EnsureLoadedStep(c: ConfigState): Result<ConfigState>
  {
    if c.stage != End then Err("Config file did not have all the fields") else Ok(Trimmed(c))
  }

  /**
    A loaded configuration: the trims leave no trailing blank entry, the
    source's assertion holds, and a file with a header has named its
    headers, so every column the filter looks up has a place in the map.
  */
  lemma LoadedFacts(c: ConfigState)
    requires Inv(c) && EnsureLoadedStep(c).Ok?
    ensures var l := EnsureLoadedStep(c).value;
      && Inv(l) && l.stage == End
      && (l.outputOrder != [] ==> l.outputOrder[|l.outputOrder| - 1] != 0)
      && (l.outputHeader != [] ==> l.outputHeader[|l.outputHeader| - 1] != [])
      && (l.hasInputHeaders || l.inputHeaders == [])
      && (l.filesHaveHeader ==> l.hasInputHeaders)
  {
    TrimmedInv(c);
  }

  /** The builder as a class whose methods update its fields as the source's do. */
  class ConfigBuilder {
    var stage: Stage
    var column: nat
    var filesHaveHeader: bool
    var addFilename: bool
    var hasInputHeaders: bool
    var inputHeaders: seq<string>
    var excludeBlanks: seq<nat>
    var excludeTexts: seq<(nat, string)>
    var filterMins: seq<(nat, string)>
    var filterMaxs: seq<(nat, string)>
    var outputOrder: seq<nat>
    var outputHeader: seq<string>

    function Snapshot(): ConfigState
      reads this
    {
      ConfigState(stage, column, filesHaveHeader, addFilename, hasInputHeaders, inputHeaders,
                  excludeBlanks, excludeTexts, filterMins, filterMaxs, outputOrder, outputHeader)
    }

    ghost predicate Valid()
      reads this
    {
      Inv(Snapshot())
    }

    constructor ()
      ensures Snapshot() == Initial() && Valid()
    {
      stage, column := Begin, 0;
      filesHaveHeader, addFilename, hasInputHeaders := false, false, false;
      inputHeaders, excludeBlanks, excludeTexts := [], [], [];
      filterMins, filterMaxs, outputOrder, outputHeader := [], [], [], [];
    }

    method BeginRow()
      requires Valid()
      modifies this
      ensures Valid() && Snapshot() == BeginRowStep(old(Snapshot()))
    {
      BeginRowInv(Snapshot());
      column := 0;
    }

    /**
      cell(): on a throw the model reports the message and leaves the
      builder as it was; the source abandons it.
    */
    method Cell(text: string, parsed: bool) returns (err: Option<string>)
      requires Valid()
      modifies this
      ensures Valid()
      ensures match CellStep(old(Snapshot()), text, parsed)
        case Ok(c) => err == None && Snapshot() == c
        case Err(m) => err == Some(m) && Snapshot() == old(Snapshot())
    {
      ghost var c0 := Snapshot();
      err := Step(text, parsed);
      if err == None {
        CellInv(c0, text, parsed);
      }
    }

    /** cell() without its invariant: the label or later-column switch, then the column advances. */
    method Step(text: string, parsed: bool) returns (err: Option<string>)
      modifies this
      ensures match CellStep(old(Snapshot()), text, parsed)
        case Ok(c) => err == None && Snapshot() == c
        case Err(m) => err == Some(m) && Snapshot() == old(Snapshot())
    {
      ghost var c0 := Snapshot();
      ghost var r := if column == 0 then LabelStep(c0, text) else DataStep(c0, text, parsed);
      if column == 0 {
        err := Label(text);
      } else {
        err := Data(text, parsed);
      }
      if err == None {
        ghost var c1 := Snapshot();
        assert r == Ok(c1);
        column := column + 1;
        assert Snapshot() == c1.(column := c0.column + 1);
      }
    }

    /** The label switch of cell(): the transition table chooses, the builder follows. */
    method Label(tag: string) returns (err: Option<string>)
      requires column == 0
      modifies this
      ensures match LabelStep(old(Snapshot()), tag)
        case Ok(c) => err == None && Snapshot() == c
        case Err(m) => err == Some(m) && Snapshot() == old(Snapshot())
    {
      var next := NextStage(stage, filesHaveHeader, tag);
      match next {
        case Err(m) =>
          return Some(m);
        case Ok(s) =>
          if stage == InputHeader {
            TrimInputHeaders();
          }
          if s == InputHeader {
            hasInputHeaders := true;
          }
          stage := s;
          return None;
      }
    }

    /** The pop_back loop run on leaving the Input Header line. */
    method TrimInputHeaders()
      modifies this
      ensures Snapshot() == old(Snapshot()).(inputHeaders := TrimEmpty(old(inputHeaders)))
    {
      while inputHeaders != [] && inputHeaders[|inputHeaders| - 1] == []
        invariant TrimEmpty(inputHeaders) == TrimEmpty(old(inputHeaders))
        invariant Snapshot() == old(Snapshot()).(inputHeaders := inputHeaders)
        decreases |inputHeaders|
      {
        inputHeaders := inputHeaders[..|inputHeaders| - 1];
      }
    }

    method Data(text: string, parsed: bool) returns (err: Option<string>)
      requires column > 0
      modifies this
      ensures match DataStep(old(Snapshot()), text, parsed)
        case Ok(c) => err == None && Snapshot() == c
        case Err(m) => err == Some(m) && Snapshot() == old(Snapshot())
    {
      err := None;
      match stage {
        case Begin =>
          return Some("bad state: Begin");
        case AddFilenameToRow =>
          if column == 1 {
            addFilename := text == "TRUE";
          }
        case FilesHaveHeader =>
          if column == 1 {
            filesHaveHeader := text == "TRUE";
          }
        case InputHeader =>
          inputHeaders := inputHeaders + [text];
        case ExcludeBlank =>
          err := AddExclusion(text);
        case ExcludeText =>
          err := AddExclusion(text);
        case FilterMin =>
          err := AddLimit(text, parsed);
        case FilterMax =>
          err := AddLimit(text, parsed);
        case ColumnOrder =>
          err := AddColumnOrder(text);
        case OutputHeader =>
          outputHeader := outputHeader + [text];
        case End =>
          return Some("Found extra stuff after the last line");
      }
    }

    /** The Exclude Blank and Exclude Text cases of cell(): one more exclusion, or a throw (no strtod verdict is consulted). */
    method AddExclusion(text: string) returns (err: Option<string>)
      requires column > 0 && (stage == ExcludeBlank || stage == ExcludeText)
      modifies this
      ensures match DataStep(old(Snapshot()), text, false)
        case Ok(c) => err == None && Snapshot() == c
        case Err(m) => err == Some(m) && Snapshot() == old(Snapshot())
    {
      err := None;
      if |text| > 0 {
        if filesHaveHeader && column - 1 >= |inputHeaders| {
          return Some(if stage == ExcludeBlank then "Too many Exclude Blank entries" else "Too many Exclude Text entries");
        }
        if stage == ExcludeText {
          excludeTexts := excludeTexts + [(column - 1, text)];
        } else if text == "TRUE" {
          excludeBlanks := excludeBlanks + [column - 1];
        }
      }
    }

    /** The Filter Min and Filter Max cases of cell(): one more FilterNumber, or a throw. */
    method AddLimit(text: string, parsed: bool) returns (err: Option<string>)
      requires column > 0 && (stage == FilterMin || stage == FilterMax)
      modifies this
      ensures match DataStep(old(Snapshot()), text, parsed)
        case Ok(c) => err == None && Snapshot() == c
        case Err(m) => err == Some(m) && Snapshot() == old(Snapshot())
    {
      err := None;
      if |text| > 0 {
        if filesHaveHeader && column - 1 >= |inputHeaders| {
          return Some(if stage == FilterMin then "Too many FilterMin entries" else "Too many FilterMax entries");
        }
        if !parsed {
          return Some(LimitError(text));
        }
        if stage == FilterMin {
          filterMins := filterMins + [(column - 1, text)];
        } else {
          filterMaxs := filterMaxs + [(column - 1, text)];
        }
      }
    }

    /** The Column Order case of cell(): one more entry of output_order_1, or a throw. */
    method AddColumnOrder(text: string) returns (err: Option<string>)
      modifies this
      ensures match OrderEntry(old(Snapshot()), text)
        case Ok(j) => err == None && Snapshot() == old(Snapshot()).(outputOrder := old(outputOrder) + [j])
        case Err(m) => err == Some(m) && Snapshot() == old(Snapshot())
    {
      var entry: nat;
      if |text| == 0 {
        entry := 0;
      } else if !hasInputHeaders {
        var col := ColumnAsciiToIndex(text);
        match col {
          case Err(m) =>
            return Some(m);
          case Ok(c) =>
            if c == 0 {
              return Some("Column A is not valid, refer to columns from B onwards (ie its position in config csv)");
            }
            entry := c;
        }
      } else {
        match FirstIndex(inputHeaders, text) {
          case None =>
            return Some("Could not find Input Header named '" + text + "'");
          case Some(k) =>
            entry := 1 + k;
        }
      }
      outputOrder := outputOrder + [entry];
      return None;
    }

    method EndRow()
      requires Valid()
      modifies this
      ensures Valid() && Snapshot() == EndRowStep(old(Snapshot()))
    {
      EndRowInv(Snapshot());
      if stage == OutputHeader {
        stage := End;
      }
    }

    /** ensure_loaded(): both trims, then the check that the last line was read. */
    method EnsureLoaded() returns (err: Option<string>)
      requires Valid()
      modifies this
      ensures Valid() && Snapshot() == Trimmed(old(Snapshot()))
      ensures hasInputHeaders || inputHeaders == []
      ensures match EnsureLoadedStep(old(Snapshot()))
        case Ok(_) => err == None
        case Err(m) => err == Some(m)
    {
      TrimmedInv(Snapshot());
      TrimOutputOrder();
      TrimOutputHeader();
      if stage != End {
        return Some("Config file did not have all the fields");
      }
      return None;
    }

    method TrimOutputOrder()
      modifies this
      ensures Snapshot() == old(Snapshot()).(outputOrder := TrimZeros(old(outputOrder)))
    {
      while outputOrder != [] && outputOrder[|outputOrder| - 1] == 0
        invariant TrimZeros(outputOrder) == TrimZeros(old(outputOrder))
        invariant Snapshot() == old(Snapshot()).(outputOrder := outputOrder)
        decreases |outputOrder|
      {
        outputOrder := outputOrder[..|outputOrder| - 1];
      }
    }

    method TrimOutputHeader()
      modifies this
      ensures Snapshot() == old(Snapshot()).(outputHeader := TrimEmpty(old(outputHeader)))
    {
      while outputHeader != [] && outputHeader[|outputHeader| - 1] == []
        invariant TrimEmpty(outputHeader) == TrimEmpty(old(outputHeader))
        invariant Snapshot() == old(Snapshot()).(outputHeader := outputHeader)
        decreases |outputHeader|
      {
        outputHeader := outputHeader[..|outputHeader| - 1];
      }
    }
  }
}
