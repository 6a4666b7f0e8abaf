# cppcsv core, modelled in Dafny

This project models the core of cppcsv, a small C++ CSV library, and proves
properties of the model. The pieces are:

- the character-by-character parser of the root `csvparser.hpp`: eight
  states, five kinds of input byte, a transition table, the `Trans` actions
  that fill the cell buffer and call the builder, and the `operator()` loop
  that stops at the first error;
- the current `csv_writer` of `include/cppcsv/csvwriter.hpp`, which holds
  back the separators of blank cells, pads rows to `min_columns` and quotes
  cells by `need_quote`, and its `add_dos_cr_out` decorator, which turns
  bare LF into CRLF;
- the older `csv_writer` of `csvwriter.h`;
- SimpleCSV (`src/simplecsv.cpp`), made of:
  - rows as sparse column maps;
  - the table, whose `IBuild` operations keep every row's `ridx` equal to
    its position;
  - the header index;
  - the builder sink that fills a table from parser events;
- the filter tool's modellable logic (`filter/filter.cpp`):
  - `str_equal`;
  - the spreadsheet column decoder `column_ascii_2_index`;
  - the `ConfigBuilder` state machine that reads the config csv;
  - `FilterBuilder::end_full_row` without its numeric filters;
- `ConvertBuilder` of `convert_grid_to_sparse`, which turns a grid into
  `(filename, x, y, value)` rows under a `Filename,X,Y,Value` header;
- a cross-file theorem: rows written by `csv_writer` with `"`, `,`, smart
  quoting and quote_quotes are read back by the parser as the same rows.
  Two side conditions apply:
  - an empty text is read back as NULL;
  - no row may end in a blank cell.

Every builder sink (`csv_builder`) is modelled as the sequence of calls it
receives (`CsvBase.Event`). The writers' `Output` functor is modelled as the
text it has received.

Files and modules:

| file | module | source |
|---|---|---|
| base.dfy | CsvBase | shared vocabulary: cells, builder events, quote doubling, joining |
| parser.dfy | CsvParser | csvparser.hpp |
| parser_facts.dfy | ParserFacts | properties of the parser, byte by byte and field by field |
| parser_rows.dfy | ParserRows | whole lines and files through the parser; the tst_csv.cpp vector |
| writer.dfy | Writer | include/cppcsv/csvwriter.hpp |
| legacy_writer.dfy | LegacyWriter | csvwriter.h |
| simplecsv.dfy | SimpleCsv | src/simplecsv.cpp |
| filter_config.dfy | FilterConfig | filter/filter.cpp: str_equal, column_ascii_2_index, ConfigBuilder |
| filter_rows.dfy | FilterRows | filter/filter.cpp: FilterBuilder |
| convert.dfy | ConvertGrid | convert_grid_to_sparse/convert_grid_to_sparse.cpp |
| roundtrip.dfy | RoundTrip | csvparser.hpp together with include/cppcsv/csvwriter.hpp |

The parser modelled is the root `csvparser.hpp`. It counts only the
space as whitespace (csvparser.hpp:194) and has no comment or
carriage-return handling: a CR is an ordinary character. cppcsv's newer
parser, `include/cppcsv/csvparser.hpp`, takes a comment character
(filter/filter.cpp:803-810); it is not part of this model.

## Model

| member | source | states |
|---|---|---|
| CsvParser.Classify | csvparser.hpp:187-200 | Each byte becomes exactly one event, in priority order: the quote char, then the separator, then a space (not a tab), then a newline, else an ordinary char. A byte equal to both quote and separator is a quote. |
| CsvParser.Step | csvparser.hpp:66-149 | One event moves the machine to the state of the transition table. It keeps the buffer invariant: cell empty in Start and ReadSkipPre, whitespace pending only in ReadUnquotedWhitespace, error set exactly in ReadError. An error message once set stays. Builder calls are only appended to. |
| CsvParser.Run | csvparser.hpp:187-213 | One call of operator(). It consumes at most the buffer. Without failure it consumes all of it. A failure stops before the end with the error message set. It keeps the buffer invariant. |
| CsvParser.Trans.constructor | csvparser.hpp:60 | Empty buffers, no error message, no calls yet. |
| CsvParser.Trans.Add | csvparser.hpp:119-122 | Appends the byte to the cell and changes nothing else. |
| CsvParser.Trans.RememberWhitespace | csvparser.hpp:125-128 | Appends the space to the pending whitespace and changes nothing else. |
| CsvParser.Trans.AddWhitespace | csvparser.hpp:130-134 | Moves the pending whitespace onto the cell and clears it. |
| CsvParser.Trans.NextCell | csvparser.hpp:136-145 | Calls cell with the buffer when it has content, else with NULL, which requires an empty buffer. Then it clears the buffer. |
| CsvParser.Trans.Emit | csvparser.hpp:68-70 | Appends one builder call (begin_row or end_row) and changes nothing else. |
| CsvParser.Trans.On | csvparser.hpp:66-114 | Performs the action of table entry (state, event) and returns the next state. Together they are exactly Step. |
| CsvParser.Parser.constructor | csvparser.hpp:174-178 | Keeps the quote and separator; the machine starts in Start with no error. |
| CsvParser.Parser.Process | csvparser.hpp:187-213 | The loop over the buffer equals Run from the state before the call. It returns true exactly on an error, with the position of the byte that failed. |
| CsvParser.Parser.ProcessLine | csvparser.hpp:181-185 | Processing a whole string is Run over it. |
| CsvParser.Parser.Error | csvparser.hpp:215 | error() is set exactly when the machine is in ReadError, and it is the machine's error message. |
| ParserFacts.RunAppend | csvparser.hpp:181-213 | Input split into chunks behaves as one stream: running a + b is running a, then b from where a left off. |
| ParserFacts.RunStopsAtFirstError | csvparser.hpp:201-208 | A failing call stops on the first byte whose transition sets an error; the bytes before it run without error. |
| ParserFacts.ErrorIsSticky | csvparser.hpp:110-114 | In ReadError nothing changes, and every further non-empty call fails on its first byte. |
| ParserFacts.RunQuotedBody | csvparser.hpp:80-86 | Inside quotes, separators, newlines, spaces and chars are kept verbatim. A doubled quote adds one quote, so the escaped text s leaves exactly s in the buffer. |
| ParserFacts.RunSpacesSkipped | csvparser.hpp:71-95 | Spaces before a cell and spaces after a closing quote are discarded without any effect. |
| ParserFacts.RunUnquotedText | csvparser.hpp:101-108 | Spaces inside or after unquoted text are buffered and kept. Buffer plus pending whitespace is exactly the text read, and no builder call is made. |
| ParserFacts.NullField | csvparser.hpp:69-76 | A separator or newline reached before any content emits cell(NULL), and further for a newline end_row. |
| ParserFacts.UnquotedField | csvparser.hpp:99-108 | An unquoted field with trailing spaces, then a delimiter, emits its text with the spaces kept. |
| ParserFacts.QuotedField | csvparser.hpp:86-95 | A closed quoted field emits its unescaped body as a non-NULL cell, even when empty, whatever spaces surround it. |
| ParserFacts.StartOpensRow | csvparser.hpp:68-72 | In Start any byte but a newline first emits begin_row and then acts as in ReadSkipPre. |
| ParserFacts.BlankLine | csvparser.hpp:70 | A bare newline in Start is begin_row, end_row, with zero cells. |
| ParserFacts.NewlineEndsRow | csvparser.hpp:76-106 | Every unquoted newline returns to Start with empty buffers and emits exactly one end_row, as its last call. |
| ParserFacts.QuotedMakesNoCalls | csvparser.hpp:80-84 | No byte inside a quoted cell makes a builder call. |
| ParserFacts.ErrorEntries | csvparser.hpp:90-104 | Fixed error messages: a quote in or after an unquoted cell, a char after a possible closing quote, a char or quote after a closing quote. |
| ParserRows.FieldRun | csvparser.hpp:74-108 | Any well-formed field (blank, unquoted or quoted), read from ReadSkipPre, emits its value and then its delimiter's calls. |
| ParserRows.LineRun | csvparser.hpp:74-108 | A line of well-formed fields emits one cell per field, in order, then end_row, back in Start. |
| ParserRows.StartLine | csvparser.hpp:68-72 | From Start, a line emits begin_row, its cells and end_row. A line that is a lone newline has no cells. |
| ParserRows.LinesRun | csvparser.hpp:181-213 | A file of well-formed lines is consumed without error. The calls are exactly those of the rows the lines spell. |
| ParserRows.TestLines | tst_csv.cpp:64-70 | The four lines of the test input are well-formed fields with the rows they stand for. |
| ParserRows.TestVector | tst_csv.cpp:64-70 | The test input with quote `'` gives the rows [], [1,s,3,"4   a"], [NULL,1,2,3,4] and [asdf,"asd'df",s], without error. |
| CsvBase.QuoteCopy | include/cppcsv/csvwriter.hpp:72-85 | The quoting loop writes quote, the text with every quote char doubled, quote; the inner part unescapes to the text. |
| CsvBase.UnescapeEscape | include/cppcsv/csvwriter.hpp:74-83 | Undoing the quote doubling gives the text back. |
| CsvBase.EscapeLength | include/cppcsv/csvwriter.hpp:74-83 | Quote doubling adds one char per quote char. |
| CsvBase.EscapeWithoutQuote | include/cppcsv/csvwriter.hpp:74-83 | A text with no quote char is copied unchanged by the doubling loop. |
| Writer.ScanNeedsQuoteExists | include/cppcsv/csvwriter.hpp:147-162 | The scan answers true exactly when some char is the separator, a newline, or the quote char with quote_quotes set. |
| Writer.NeedQuoteCases | include/cppcsv/csvwriter.hpp:122-163 | need_quote is true exactly when the first or last char is a space or tab, or the first char is the quote char, or the scan finds a special char. |
| Writer.RenderReadsBack | include/cppcsv/csvwriter.hpp:69-86 | A non-empty cell is written raw or quoted-and-doubled, and the quoted form unescapes to the text. Without smart_quote it is always quoted. Raw under smart_quote, its ends are not blank, the first char is not the quote char and no char is special. |
| Writer.CellTextEmpty | include/cppcsv/csvwriter.hpp:59-61 | A cell writes nothing of its own exactly when it is NULL or empty. |
| Writer.BeginRowStep | include/cppcsv/csvwriter.hpp:46-52 | Requires no open row; opens one with no columns or pending separators and counts it. |
| Writer.CellStep | include/cppcsv/csvwriter.hpp:53-87 | Requires an open row. The column advances by one, pending separators stay within the columns, and a NULL or empty cell writes nothing. |
| Writer.EndRowStep | include/cppcsv/csvwriter.hpp:91-107 | Requires an open row; closes it with at least min_columns columns. |
| Writer.CellsStep | include/cppcsv/csvwriter.hpp:53-87 | A run of cells advances the column by their number and keeps the row open. |
| Writer.CellsShape | include/cppcsv/csvwriter.hpp:55-67 | After any cells, the text is the non-empty cells' texts joined with one separator per preceding cell. The separators of trailing blank cells are still pending. |
| Writer.BlankCellShape | include/cppcsv/csvwriter.hpp:55-61 | A NULL or empty cell only adds a pending separator. |
| Writer.TextCellShape | include/cppcsv/csvwriter.hpp:55-86 | A non-empty cell flushes the pending separators, then writes its text. |
| Writer.PadShape | include/cppcsv/csvwriter.hpp:96-103 | Padding discards the pending separators and adds separators up to min_columns fields. |
| Writer.WriteRowText | include/cppcsv/csvwriter.hpp:46-107 | A row writes its cell texts with trailing blank ones dropped, padded to min_columns, joined by the separator, then a newline unless skip_newline. It closes the row and counts it once. |
| Writer.WriteRowsText | include/cppcsv/csvwriter.hpp:116-119 | Rows written in turn give their lines one after another; current_row grows by the number of rows. |
| Writer.MinColumnsExample | include/cppcsv/csvwriter.hpp:98-103 | Two cells with min_columns 5 give "a,b,,,": four separators. |
| Writer.CsvWriter.constructor | include/cppcsv/csvwriter.hpp:34-44 | The Output constructor keeps the settings and starts with no row open, no columns and current_row 0. |
| Writer.CsvWriter.BeginRow | include/cppcsv/csvwriter.hpp:46-52 | Does BeginRowStep on the fields. |
| Writer.CsvWriter.Cell | include/cppcsv/csvwriter.hpp:53-87 | Does CellStep on the fields and the output. |
| Writer.CsvWriter.RenderText | include/cppcsv/csvwriter.hpp:69-86 | The text cell() writes for a non-empty cell is Render: raw when quoting is off or need_quote is false under smart_quote, else quoted with quote chars doubled. |
| Writer.CsvWriter.FlushSeps | include/cppcsv/csvwriter.hpp:63-67 | Writes the pending separators and clears the count. |
| Writer.CsvWriter.EndRow | include/cppcsv/csvwriter.hpp:91-107 | Does EndRowStep on the fields and the output. |
| Writer.CsvWriter.IsRowOpen | include/cppcsv/csvwriter.hpp:109 | is_row_open() is the model state's open-row flag, which WriteRowText proves false after every complete row. |
| Writer.CsvWriter.Finish | include/cppcsv/csvwriter.hpp:112-114 | Its requires is the source's `assert(!row_is_open)`: finish() may be called only when no row is left open. It writes nothing and changes no state. |
| Writer.CsvWriter.GetCurrentRow | include/cppcsv/csvwriter.hpp:116-119 | get_current_row() is the model state's row count, which WriteRowsText proves grows by one per written row. |
| Writer.AddDosCr | include/cppcsv/csvwriter.hpp:195-214 | The decorator loop forwards exactly DosCr of its buffer. |
| Writer.DosCrLfHasCr | include/cppcsv/csvwriter.hpp:195-214 | In the forwarded text every '\n' is preceded by '\r'. |
| Writer.DosCrStrip | include/cppcsv/csvwriter.hpp:195-214 | Nothing but '\r' is added: with the CRs removed, input and output agree. |
| Writer.DosCrNoLf | include/cppcsv/csvwriter.hpp:195-214 | A buffer without '\n' is forwarded unchanged. |
| Writer.DosCrLast | include/cppcsv/csvwriter.hpp:213 | The forwarded text ends with the buffer's last byte. |
| Writer.DosCrPerCall | include/cppcsv/csvwriter.hpp:196 | last_was_cr starts afresh in each call: "\r" then "\n" in two calls give "\r\r\n", in one call "\r\n". |
| LegacyWriter.NeedQuoteExists | csvwriter.h:64-73 | need_quote is true exactly when the cell contains the quote char, the separator or '\n'. |
| LegacyWriter.CellTextQuoting | csvwriter.h:38-55 | Without smart_quote every non-NULL cell is quoted and doubled, so an empty one is "". Any quoted form unescapes to the text. A raw cell under smart_quote has no quote, separator or newline. |
| LegacyWriter.BeginRowStep | csvwriter.h:26-28 | begin_row resets the first-cell flag and writes nothing. |
| LegacyWriter.CellStep | csvwriter.h:29-56 | After any cell the row has begun. A NULL cell writes only its separator, none if it is first. |
| LegacyWriter.EndRowStep | csvwriter.h:57-62 | end_row leaves the first-cell flag as it is. |
| LegacyWriter.CellsJoined | csvwriter.h:26-56 | A row's cells are written joined by exactly one separator each, NULL cells included. |
| LegacyWriter.WriteRowText | csvwriter.h:26-62 | A row writes its joined cells and then "\r\n" with dos_cr, else "\n". |
| LegacyWriter.NullRows | csvwriter.h:29-37 | Three NULL cells write two separators and the terminator. |
| LegacyWriter.CsvWriter.constructor | csvwriter.h:18-24 | Keeps the settings; the first cell has no separator. |
| LegacyWriter.CsvWriter.BeginRow | csvwriter.h:26-28 | Does BeginRowStep on the fields. |
| LegacyWriter.CsvWriter.Cell | csvwriter.h:29-56 | Does CellStep on the fields and the output. |
| LegacyWriter.CsvWriter.EndRow | csvwriter.h:57-62 | Does EndRowStep on the output. |
| SimpleCsv.SizeOf | src/simplecsv.cpp:77-85 | Row::size is above every stored index. It is 0 exactly for no columns, else the largest index plus one. |
| SimpleCsv.GetValue | src/simplecsv.cpp:63-74 | operator[](cidx) gives the stored text, or the empty sentinel (None) for an unset index. |
| SimpleCsv.SetDeleteKeeps | src/simplecsv.cpp:89-93 | Deleting with del as written leaves the column in place, with an empty text. |
| SimpleCsv.SetColumn | src/simplecsv.cpp:87-94 | Corrected set: del removes exactly that column. Otherwise the column is added only if absent, because insert does not overwrite, and no other column changes. |
| SimpleCsv.RowCells | src/simplecsv.cpp:109-123 | A row is written as size() cells, each the value at that index or NULL. |
| SimpleCsv.Filled | src/simplecsv.cpp:293-302 | A built row holds every cell's text at indices 0, 1, 2, …. |
| SimpleCsv.RowRoundTrip | src/simplecsv.cpp:109-123 | Writing a row and building it again gives the same size and the same text at every index. |
| SimpleCsv.Row.constructor | src/simplecsv.cpp:41-44 | A new row has its ridx and no columns. |
| SimpleCsv.Row.Set | src/simplecsv.cpp:87-94 | Updates the columns as SetColumn does. |
| SimpleCsv.Row.Write | src/simplecsv.cpp:109-123 | Emits begin_row, one cell per index up to size() (NULL where unset), end_row. |
| SimpleCsv.FirstIndex | src/simplecsv.cpp:166-173 | The first position of a name, or -1 exactly when it is absent. |
| SimpleCsv.HeaderCells | src/simplecsv.cpp:253-261 | Corrected header row: one cell per column name. |
| SimpleCsv.HeaderBoundedByRows | src/simplecsv.cpp:255 | As written the header loop runs to the row count: two names and one row give only the first name, and three rows read past the names. |
| SimpleCsv.AllCells | src/simplecsv.cpp:263-266 | The rows' cells, one entry per row, in order. |
| SimpleCsv.Table.constructor | include/cppcsv/simplecsv.hpp:80 | A new table has no rows and no header. |
| SimpleCsv.Table.RowAt | src/simplecsv.cpp:137-143 | operator[](ridx) gives the row at that position, whose ridx is its position. There is a row exactly when ridx is below the row count; past the end the answer stands for the empty_row sentinel. |
| SimpleCsv.Table.FindColumn | src/simplecsv.cpp:166-173 | find_column gives the first index registered for the name, or -1 exactly when it is unknown. "First" relies on `multimap::find` returning the lower bound, as libstdc++ does, and on `insert` (src/simplecsv.cpp:245) placing equal keys after earlier ones. |
| SimpleCsv.Table.ValueByName | src/simplecsv.cpp:54-61 | Lookup by an unknown name gives the empty sentinel; a known one gives the value at its column. |
| SimpleCsv.Table.NewRow | src/simplecsv.cpp:178-182 | Appends an empty row whose ridx is the previous row count; the index invariant is kept. |
| SimpleCsv.Table.InsertRow | src/simplecsv.cpp:185-215 | Inside the table it inserts an empty row at the position and shifts the later rows. Past the end it appends empty rows through that index and returns the last. Either way rows[i].ridx == i. |
| SimpleCsv.Table.InsertInside | src/simplecsv.cpp:187-207 | The insert branch with its ridx fix-up loop. |
| SimpleCsv.Table.AppendThrough | src/simplecsv.cpp:208-214 | The append branch. |
| SimpleCsv.Table.DeleteRow | src/simplecsv.cpp:218-233 | Out of range it changes nothing. Otherwise it removes that row and renumbers the later ones, keeping rows[i].ridx == i. |
| SimpleCsv.Table.Renumber | src/simplecsv.cpp:202-206 | The fix-up loop makes every ridx its position and leaves the contents alone. |
| SimpleCsv.Table.SetHeader | src/simplecsv.cpp:237-248 | Replaces the header names and the name index and leaves the rows alone. |
| SimpleCsv.Table.Write | src/simplecsv.cpp:251-267 | Emits the header row (if asked) and then each row's events, in order. The header is the corrected one of the src/simplecsv.cpp:255 finding, HeaderCells: one cell per name. What the source emits is HeaderCellsAsWritten, bounded by the row count. |
| SimpleCsv.Table.WriteRows | src/simplecsv.cpp:263-266 | The row loop: each row's events in order. |
| SimpleCsv.HeaderEvents | src/simplecsv.cpp:253-260 | The header row's events: begin_row, one cell per name, end_row. |
| SimpleCsv.IndexNames | src/simplecsv.cpp:242-247 | The name index maps every name to its first position. |
| SimpleCsv.HeaderIndexAppend | src/simplecsv.cpp:245 | Registering one more name keeps the first position of every name. |
| SimpleCsv.HeaderCellsRun | src/simplecsv.cpp:295-298 | Header cells are collected as text, NULL as empty. |
| SimpleCsv.DataRowRun | src/simplecsv.cpp:282-302 | A data row becomes one new table row holding its cells at 0, 1, 2, …. |
| SimpleCsv.DataCellsRunFrom | src/simplecsv.cpp:300-302 | Cells of a data row are stored at consecutive indices from the current one, and cidx advances by their number. |
| SimpleCsv.HeaderRowRun | src/simplecsv.cpp:282-312 | With first_is_header the first row becomes the header on end_row and no data row. |
| SimpleCsv.DataRowsRun | src/simplecsv.cpp:282-302 | Data rows become table rows, one each, in order; the header stays. |
| SimpleCsv.BuildTable | src/simplecsv.cpp:273-312 | From a fresh builder, an optional header row and data rows give that header and those rows. |
| SimpleCsv.WriteThenBuild | src/simplecsv.cpp:251-312 | A table written with its header and built again has the same header, the same number of rows, and in every row the same size and the same text at every index (an unset index reads as empty). This is the round trip of the corrected header (HeaderCells) of the src/simplecsv.cpp:255 finding. The source emits HeaderCellsAsWritten, for which it holds only when there are as many rows as names. |
| SimpleCsv.Builder.constructor | src/simplecsv.cpp:273-279 | No current row, header collection on if first_is_header. |
| SimpleCsv.Builder.BeginRow | src/simplecsv.cpp:282-290 | As header nothing happens; otherwise a new row is appended and the cell index reset. |
| SimpleCsv.Builder.Cell | src/simplecsv.cpp:293-302 | As header the text is collected; otherwise it is set at the next index of the current row. |
| SimpleCsv.Builder.EndRow | src/simplecsv.cpp:305-312 | As header the collected names become the table header and header mode ends. |
| FilterConfig.CLength | filter/filter.cpp:82 | strlen: the length up to the first NUL. |
| FilterConfig.StrncmpExact | filter/filter.cpp:77 | strncmp over n NUL-free bytes is zero exactly when they match. |
| FilterConfig.StrEqualExact | filter/filter.cpp:75-78 | For a NUL-free text, str_equal holds exactly when lengths and bytes are equal. |
| FilterConfig.StrEqualLiteral | filter/filter.cpp:80-83 | Comparing against a label literal is exact equality. |
| FilterConfig.StrEqualRefl | filter/filter.cpp:75-78 | Every text is str_equal to itself. |
| FilterConfig.StrEqualStopsAtNul | filter/filter.cpp:77 | strncmp stops at a NUL, so texts that differ after a NUL compare equal. |
| FilterConfig.ColumnAsciiToIndex | filter/filter.cpp:86-101 | The decoding loop gives ColumnIndex: an error for more than 3 chars or a char outside A-Z, else bijective base 26 minus one. |
| FilterConfig.Letters | filter/filter.cpp:105-116 | The commented-out inverse index_2_column_ascii gives a non-empty run of capitals. |
| FilterConfig.Base26Letters | filter/filter.cpp:105-116 | Decoding the letters of m gives m. |
| FilterConfig.LettersBase26 | filter/filter.cpp:86-101 | Spelling the value of a capital run gives that run back: a bijection. |
| FilterConfig.Base26Bound | filter/filter.cpp:88-97 | k capitals are worth at most 26 + … + 26^k. |
| FilterConfig.LettersLength | filter/filter.cpp:88-97 | An index worth at most 26 + … + 26^k is spelled with at most k letters. |
| FilterConfig.ColumnIndexOfName | filter/filter.cpp:86-116 | Every index below 18278 is spelled by a name that decodes to it. |
| FilterConfig.ColumnNameOfIndex | filter/filter.cpp:86-116 | Every name that decodes is the spelling of its index. |
| FilterConfig.ColumnIndexExamples | filter/filter.cpp:86-101 | "A" is 0, "Z" 25, "AA" 26, "ZZZ" 18277. "AAAA" and "b" throw. "" wraps to SIZE_MAX. |
| FilterConfig.FirstIndex | filter/filter.cpp:347 | std::find: the first equal position, absent exactly when none is equal. |
| FilterConfig.HeaderEntry | filter/filter.cpp:344-351 | A Column Order cell with input headers is 1 plus the first equal header's place, or an error exactly when no header equals it. |
| FilterConfig.TrimZeros | filter/filter.cpp:381-382 | Only trailing zero entries are removed. |
| FilterConfig.InitialInv | filter/filter.cpp:141-147 | The constructed builder satisfies the invariant of the config reader. Input headers exist only after their label. Data vectors stay empty before Exclude Blank. With file headers every filter column lies within the input headers, and every Column Order entry is at most the number of input headers. |
| FilterConfig.NextStageOrder | filter/filter.cpp:182-259 | A label is accepted exactly when it is allowed in the current stage, and it moves to the stage it names. |
| FilterConfig.LabelOrder | filter/filter.cpp:182-259 | A label line changes the stage and nothing else. The exceptions: Input Header sets has_input_headers, and leaving Input Header trims trailing empty input headers. |
| FilterConfig.HeaderLineMandatory | filter/filter.cpp:198-205 | With files_have_header only Input Header may follow Files Have Header. |
| FilterConfig.LabelInv | filter/filter.cpp:182-259 | A label keeps the invariant. |
| FilterConfig.BlankInv | filter/filter.cpp:285-293 | Exclude Blank cells keep the invariant; with file headers a recorded column is inside the input headers. |
| FilterConfig.TextInv | filter/filter.cpp:295-302 | Exclude Text cells keep the invariant. |
| FilterConfig.LimitInv | filter/filter.cpp:304-330 | Filter Min/Max cells keep the invariant. |
| FilterConfig.LimitCell | filter/filter.cpp:304-330 | A non-empty limit cell throws exactly when its header column is past the input headers ("Too many …", checked first, whatever strtod says) or strtod does not read it whole or sets errno; the latter throws "Error parsing FilterMin number '<text>'" on both lines, the Filter Max line reusing the FilterMin wording. A kept non-empty cell adds exactly one limit. |
| FilterConfig.OrderInv | filter/filter.cpp:332-353 | Column Order cells keep the invariant; with input headers every entry is at most their number. |
| FilterConfig.OtherDataInv | filter/filter.cpp:271-357 | The flag lines, input headers and output headers keep the invariant. |
| FilterConfig.DataInv | filter/filter.cpp:262-361 | Every data cell the builder accepts keeps the invariant. |
| FilterConfig.CellInv | filter/filter.cpp:176-365 | Every accepted cell keeps the invariant. |
| FilterConfig.BeginRowInv | filter/filter.cpp:167-170 | begin_row keeps the invariant. |
| FilterConfig.EndRowInv | filter/filter.cpp:369-374 | end_row keeps the invariant. |
| FilterConfig.TrimmedInv | filter/filter.cpp:381-386 | The trims of ensure_loaded keep the invariant. |
| FilterConfig.LoadedFacts | filter/filter.cpp:378-392 | An accepted configuration is in End and keeps the invariant. It has input headers whenever files have a header, and it has no trailing 0 order entry or empty output header. |
| FilterConfig.ConfigBuilder.constructor | filter/filter.cpp:141-147 | Starts in Begin at column 0 with every flag false and every vector empty. |
| FilterConfig.ConfigBuilder.BeginRow | filter/filter.cpp:167-170 | Resets the column. |
| FilterConfig.ConfigBuilder.Cell | filter/filter.cpp:176-365 | A cell does CellStep and keeps the invariant Inv. A thrown error leaves the state as it was. |
| FilterConfig.ConfigBuilder.Step | filter/filter.cpp:178-365 | The column-0 label switch or the later-column switch, then `++column` only when nothing was thrown: together they do CellStep, and a throw leaves the state as it was. |
| FilterConfig.ConfigBuilder.Label | filter/filter.cpp:182-259 | The column-0 switch does LabelStep. |
| FilterConfig.ConfigBuilder.TrimInputHeaders | filter/filter.cpp:214-215 | The pop_back loop removes exactly the trailing empty input headers. |
| FilterConfig.ConfigBuilder.Data | filter/filter.cpp:262-361 | The later-column switch does DataStep. |
| FilterConfig.ConfigBuilder.AddExclusion | filter/filter.cpp:285-302 | The Exclude Blank and Exclude Text cases do DataStep: a non-empty cell past the input headers throws "Too many …"; otherwise Exclude Blank adds its column when the cell is TRUE and Exclude Text adds the column with its text. |
| FilterConfig.ConfigBuilder.AddLimit | filter/filter.cpp:304-326 | The Filter Min and Filter Max cases do DataStep: "Too many …", then LimitError when strtod does not read the cell whole, else one more limit. |
| FilterConfig.ConfigBuilder.AddColumnOrder | filter/filter.cpp:332-353 | Appends OrderEntry of the cell, or throws its error: 0 for blank, a header place, or a spreadsheet column other than A. |
| FilterConfig.ConfigBuilder.EndRow | filter/filter.cpp:369-374 | In Output Header it moves to End, else nothing changes. |
| FilterConfig.ConfigBuilder.EnsureLoaded | filter/filter.cpp:378-392 | Trims both vectors and throws exactly when the stage is not End. |
| FilterConfig.ConfigBuilder.TrimOutputOrder | filter/filter.cpp:381-382 | Removes exactly the trailing zeros. |
| FilterConfig.ConfigBuilder.TrimOutputHeader | filter/filter.cpp:385-386 | Removes exactly the trailing empty names. |
| FilterRows.HeaderMapMatches | filter/filter.cpp:589-624 | The header row is accepted exactly when every expected header is among the file's cells. Entry i is then the first file column equal to expected header i. |
| FilterRows.HeaderMapErrPrefix | filter/filter.cpp:603-620 | The first missing expected header decides the error. |
| FilterRows.FindHeader | filter/filter.cpp:607-610 | The inner search gives the first equal column, or the cell count. |
| FilterRows.MatchHeaders | filter/filter.cpp:596-623 | The matching loops give HeaderMap: the map, or the error naming the first missing header and listing the file's headers. |
| FilterRows.BlanksPass | filter/filter.cpp:633-639 | The exclude-blank loop passes exactly when every such column is present and non-empty. |
| FilterRows.TextsPass | filter/filter.cpp:642-654 | The exclude-text loop passes exactly when no present such column is str_equal to its text. |
| FilterRows.KeepsTextsExact | filter/filter.cpp:642-654 | For NUL-free texts the exclude-text rule rejects exactly the rows whose column equals the text. |
| FilterRows.OutputRowShape | filter/filter.cpp:689-719 | A written row is the optional filename, then one cell per output_order_1 entry, then NULLs. Its length is the filename plus the larger of the order and output header sizes. |
| FilterRows.ProjectByName | filter/filter.cpp:700-711 | With file headers, entry j writes the file column holding input header j, or NULL when the row is shorter. |
| FilterRows.PicksAt | filter/filter.cpp:696-714 | Cell k of the projection is the pick of order entry k. |
| FilterRows.PickCells | filter/filter.cpp:696-714 | The order loop computes one cell per entry: NULL for 0 or past the row, else that column. |
| FilterRows.NullCells | filter/filter.cpp:716-717 | The padding loop computes NULLs up to the output header size. |
| FilterRows.RowCalls | filter/filter.cpp:689-720 | A passing row makes exactly the writer calls of OutputRow. |
| FilterRows.RowStepFacts | filter/filter.cpp:587-724 | A throw comes from the header row of a file with a header, for a missing expected header, or from the numeric checks (parse_number) of a non-empty data row that the blank and text rules keep. The header row and empty rows write nothing. Every other row writes nothing or exactly its OutputRow, the latter only if it passes every rule. first_row ends false. |
| FilterRows.FilterBuilder.constructor | filter/filter.cpp:572-578 | Starts on the first row with no map and no output, for a loaded configuration. |
| FilterRows.FilterBuilder.EndFullRow | filter/filter.cpp:587-724 | end_full_row does RowStep; a throw leaves the state as it was. |
| FilterRows.FilterBuilder.WriteRow | filter/filter.cpp:689-720 | Appends the calls of OutputRow and changes nothing else. |
| ConvertGrid.DecimalRoundTrip | convert_grid_to_sparse/convert_grid_to_sparse.cpp:105-106 | lexical_cast spells a number as non-empty digits without a leading zero that read back as the number. |
| ConvertGrid.DecimalInjective | convert_grid_to_sparse/convert_grid_to_sparse.cpp:105-106 | Different numbers have different spellings. |
| ConvertGrid.ConvertBuilder.constructor | convert_grid_to_sparse/convert_grid_to_sparse.cpp:86 | Starts at column 0, row 0. |
| ConvertGrid.ConvertBuilder.BeginRow | convert_grid_to_sparse/convert_grid_to_sparse.cpp:91-95 | col becomes 1 and row grows by one. |
| ConvertGrid.ConvertBuilder.EndRow | convert_grid_to_sparse/convert_grid_to_sparse.cpp:97 | Nothing changes. |
| ConvertGrid.ConvertBuilder.Cell | convert_grid_to_sparse/convert_grid_to_sparse.cpp:99-113 | Does CellStep: one sparse row for a non-NULL cell at col >= 2 and row >= 11, and col advances for every cell. |
| ConvertGrid.CellStepFound | convert_grid_to_sparse/convert_grid_to_sparse.cpp:101-110 | A cell writes exactly the rows of Found: one 4-cell row if it qualifies, else none. |
| ConvertGrid.FeedWrites | convert_grid_to_sparse/convert_grid_to_sparse.cpp:99-113 | A line's cells write their entries in order, and col advances by their number, skipped cells included. |
| ConvertGrid.FeedRowsWrites | convert_grid_to_sparse/convert_grid_to_sparse.cpp:91-113 | A grid writes the entries of its lines in order, and row grows by their number. |
| ConvertGrid.RowEntriesSound | convert_grid_to_sparse/convert_grid_to_sparse.cpp:101-110 | Every entry of a line comes from one qualifying cell, with its coordinates. |
| ConvertGrid.RowEntriesComplete | convert_grid_to_sparse/convert_grid_to_sparse.cpp:101-110 | Every qualifying cell of a line gives its entry. |
| ConvertGrid.GridEntriesSound | convert_grid_to_sparse/convert_grid_to_sparse.cpp:91-110 | Every entry of a grid comes from one qualifying cell. |
| ConvertGrid.GridEntriesComplete | convert_grid_to_sparse/convert_grid_to_sparse.cpp:91-110 | Every qualifying cell of a grid gives its entry. |
| ConvertGrid.GridEntriesMember | convert_grid_to_sparse/convert_grid_to_sparse.cpp:88-110 | A row is output exactly when some non-NULL cell at line i >= 10, position k >= 1 (0-based) gives [filename, k, i - 9, value]. |
| ConvertGrid.EntryCoordinates | convert_grid_to_sparse/convert_grid_to_sparse.cpp:105-108 | The X and Y cells of an output row are digits that read back as the coordinates. |
| ConvertGrid.ConvertFilesWrites | convert_grid_to_sparse/convert_grid_to_sparse.cpp:147-155 | Each file, through a fresh builder, appends its entries after the previous ones. |
| ConvertGrid.CombinedRows | convert_grid_to_sparse/convert_grid_to_sparse.cpp:137-155 | The output is the row Filename,X,Y,Value and then every file's entries, in order. |
| RoundTrip.FieldOfCell | include/cppcsv/csvwriter.hpp:59-86 | A cell's written text is a field the parser accepts and reads back as the cell, with empty as NULL. |
| RoundTrip.LineOfCells | include/cppcsv/csvwriter.hpp:53-87 | A row's written fields, joined by commas with a newline, are the line the parser reads. |
| RoundTrip.ClosedFields | include/cppcsv/csvwriter.hpp:96-97 | A row ending in a non-empty text loses no field at end_row. |
| RoundTrip.LineReadBack | include/cppcsv/csvwriter.hpp:46-107 | Every written line, an empty row's lone newline included, is read back as the row with empty texts as NULL. |
| RoundTrip.RowsReadBack | include/cppcsv/csvwriter.hpp:46-107 | The text of written rows is the lines the parser reads as those rows. |
| RoundTrip.ParseWrite | include/cppcsv/csvwriter.hpp:46-107 | Rows written by a fresh writer (`"`, `,`, smart_quote, quote_quotes), each empty or ending in a non-empty text, parse without error into the same rows, with empty texts as NULL. |
| RoundTrip.TrailingBlankLost | include/cppcsv/csvwriter.hpp:96-97 | Why the side condition is needed: a trailing NULL cell leaves the written text unchanged, whatever the settings. |

## Left out

- File and console I/O, the main functions, progress printing and dumps (`Row::dump`, `Table::dump`): the model takes the cells a parser produced and returns the calls or text a writer makes.
- The newer parser of `include/cppcsv/csvparser.hpp`, which the filter and convert tools use, is not part of this model. Those tools' input is given as parsed rows.
- `csv_builder`, `csv_builder_bulk`, `OutputRef` and `make_OutputRef` only forward calls and are not modelled as such.
- The boost::variant dispatch and the DEBUG blocks of `csvparser.hpp`: the state is a datatype and the table a `match`.
- Floating point: `strtod`, `parse_number`, the FilterMin/FilterMax thresholds and their checks. Limit cells keep their text. Whether strtod reads a config limit cell whole without setting errno (filter/filter.cpp:310-314, 322-326) is the `parsed` parameter of FilterConfig.DataStep and CellStep. The outcome of the numeric checks is the `numeric` parameter of FilterRows.RowStep: a parse_number error message or a pass verdict.
- `Value::asInt` (`atoi`).
- FilterRows.RowStep: which data rows make parse_number throw ("Cell too large to parse", "Error parsing number …") and which pass the Filter Min/Max bounds is not computed; it is given as the `numeric` parameter, and the model only propagates that throw.
- Texts are sequences of Dafny characters standing for the bytes of the source's `char` buffers; only equality against ASCII constants is used, so no proved property depends on the difference.
- `ExtractHeaderBuilder` and `ensure_csv_ok` of the filter tool.
- SimpleCsv.Table.FindColumn: names are compared exactly; the case-insensitive `lt_nocase_str` comparator is not part of this model.
- FilterConfig.ConfigBuilder.Cell: on a throw the model leaves the state unchanged, and the builder is abandoned. The source may already have changed it: the Exclude Blank label check throws after the input headers are trimmed (filter/filter.cpp:214-218), and an unparsable limit throws after its FilterNumber is pushed (filter/filter.cpp:312-314, 324-326). `column` is never advanced on a throw.
- FilterRows.FilterBuilder.EndFullRow: on a throw the model leaves the state unchanged, while the source has already resized `map_header_to_file`; the builder is abandoned either way.
- FilterConfig.StrEqualExact: `str_equal` is exact equality only for NUL-free texts; FilterConfig.StrEqualStopsAtNul shows it is weaker with embedded NULs.
- NULL cells reaching ConfigBuilder, FilterBuilder and SimpleCSV's builder are taken as empty texts, as `std::string(NULL, 0)` and the offset spans make them.
- Writer.CsvWriter.constructor: only the constructor taking an Output is modelled; the other one leaves `current_row` uninitialised.
- Writer.AddDosCr: modelled per call of the decorator, since `last_was_cr` starts afresh in each call; the writer's separate calls for separators, cells and newlines are not replayed through it.
- FilterRows.RowCalls: the writer calls of a row are modelled as the builder events of the computed cells, not as the text `csv_writer` makes of them.
- `get_current_row` of FilterBuilder only forwards to the writer (Writer.CsvWriter.GetCurrentRow).
- ConvertGrid.ConvertBuilder.Cell: `size_t` counters are unbounded naturals; wrap-around after 2^64 cells is not modelled.
- FilterConfig.ColumnIndexExamples: the empty name's wrap-around is modelled as the constant SIZE_MAX of a 64-bit `size_t`.
- SimpleCSV's Value objects and the `empty_row`/`empty_value` sentinels are Option values in the rows' maps; Row is a class held by reference. `delete` is not modelled.

## Findings

| source | as written | input that shows it | evidently intended | confidence | as-written member | corrected member |
|---|---|---|---|---|---|---|
| src/simplecsv.cpp:87-94 | `Row::set` with `del` erases the column and then inserts a new Value holding `""` | `set(0, del)` on a row holding "x" at 0 leaves column 0 holding "" and size 1 | deleting removes the column | not executed | SimpleCsv.SetDeleteKeeps | SimpleCsv.SetColumn |
| src/simplecsv.cpp:255 | the header loop of `Table::write` runs to the row count `size()` | two names and one row write only the first name; three rows read past the names | one cell per column name | not executed | SimpleCsv.HeaderBoundedByRows | SimpleCsv.HeaderCells |
