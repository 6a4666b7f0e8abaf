/**
  SimpleCSV of src/simplecsv.cpp: an in-memory table of rows, each a sparse
  map from column index to text, with a header name index, the IBuild
  operations that add, insert and delete rows keeping every row's ridx equal
  to its position, writers that replay rows as builder events, and the
  builder sink that fills a table from parser events.

  Rows are objects (the table and the builder hold them by address); the
  Value objects and empty_row / empty_value sentinels become Option results,
  None standing for the shared sentinel. Header names are compared exactly.
*/
module SimpleCsv {
  import opened CsvBase

  /** The second argument of Row::set: a text, or the Row::del sentinel. */
  datatype Assign = Put(text: string) | Delete

  /** The largest of a non-empty set of column indices (the map's last key). */
  function MaxKey(keys: set<nat>): (m: nat)
    requires keys != {}
    ensures m in keys && forall k :: k in keys ==> k <= m
  {
    MaxExists(keys);
    var m :| m in keys && forall k :: k in keys ==> k <= m;
    m
  }

  lemma MaxExists(keys: set<nat>)
    requires keys != {}
    ensures exists m :: m in keys && forall k :: k in keys ==> k <= m
  {
    var k :| k in keys;
    if keys != {k} {
      MaxExists(keys - {k});
      var m :| m in keys - {k} && forall j :: j in keys - {k} ==> j <= m;
      var top := if m < k then k else m;
      forall j | j in keys
        ensures j <= top
      {
        if j != k {
          assert j in keys - {k};
        }
      }
    } else {
      assert forall j :: j in keys ==> j <= k;
    }
  }

  /** Row::size: one past the largest stored column index, 0 for no columns. */
  function SizeOf(cols: map<nat, string>): (n: nat)
    ensures forall k :: k in cols ==> k < n
    ensures n == 0 <==> cols == map[]
    ensures n > 0 ==> n - 1 in cols
  {
    if cols.Keys == {} then 0 else MaxKey(cols.Keys) + 1
  }

  /** Row::operator[](cidx): the stored value, or None for the shared empty value. */
  function GetValue(cols: map<nat, string>, cidx: nat): (r: Option<string>)
    ensures r == if cidx in cols then Some(cols[cidx]) else None
  {
    if cidx >= SizeOf(cols) then None
    else if cidx in cols then Some(cols[cidx])
    else None
  }

  /** The text a value carries; the shared empty value holds "". */
  function TextOf(v: Option<string>): string
  {
    match v
    case None => []
    case Some(s) => s
  }

  /** std::map::insert: a value is stored only at a free key. */
  function Insert(cols: map<nat, string>, cidx: nat, text: string): map<nat, string>
  {
    if cidx in cols then cols else cols[cidx := text]
  }

  /** Row::set as written: insert never replaces, and the del path inserts "" again after erasing. */
  function SetAsWritten(cols: map<nat, string>, cidx: nat, a: Assign): map<nat, string>
  {
    var erased := if a.Delete? then cols - {cidx} else cols;
    Insert(erased, cidx, if a.Put? then a.text else [])
  }

  /** Deleting a column the way Row::set is written leaves it stored, as an empty text. */
  lemma SetDeleteKeeps()
    ensures SetAsWritten(map[0 := "x"], 0, Delete) == map[0 := ""]
    ensures SizeOf(SetAsWritten(map[0 := "x"], 0, Delete)) == 1
    ensures GetValue(SetAsWritten(map[0 := "x"], 0, Delete), 0) == Some("")
  {
    assert (map[0 := "x"] - {0}) == map[];
    var r := SetAsWritten(map[0 := "x"], 0, Delete);
    assert r.Keys == {0};
    assert MaxKey({0}) == 0;
  }

  /**
    Row::set with the del sentinel removing the column: a text is stored
    only at a free index (map::insert keeps an existing value), del erases.
  */
  function SetColumn(cols: map<nat, string>, cidx: nat, a: Assign): (r: map<nat, string>)
    ensures a.Delete? ==> cidx !in r && forall k :: k in cols && k != cidx ==> k in r && r[k] == cols[k]
    ensures a.Delete? ==> forall k :: k in r ==> k in cols
    ensures a.Put? ==> cidx in r && r[cidx] == (if cidx in cols then cols[cidx] else a.text)
    ensures a.Put? ==> r.Keys == cols.Keys + {cidx} && forall k :: k in cols ==> r[k] == cols[k]
  {
    match a
    case Delete => cols - {cidx}
    case Put(text) => Insert(cols, cidx, text)
  }

  /** The cells Row::write hands on: one per index below the size, NULL where nothing is stored. */
  function RowCells(cols: map<nat, string>): (cells: seq<Cell>)
    ensures |cells| == SizeOf(cols)
    ensures forall i :: 0 <= i < |cells| ==> cells[i] == GetValue(cols, i)
  {
    seq(SizeOf(cols), i requires 0 <= i < SizeOf(cols) => GetValue(cols, i))
  }

  /** The texts builder::cell stores: std::string(buf, len), "" for a NULL cell. */
  function CellString(c: Cell): string
  {
    match c
    case None => []
    case Some(s) => s
  }

  /** The row the builder makes of a row of cells: cell i stored at index i. */
  function Filled(cells: seq<Cell>): (r: map<nat, string>)
    ensures forall i :: i in r <==> 0 <= i < |cells|
    ensures forall i :: 0 <= i < |cells| ==> r[i] == CellString(cells[i])
  {
    map i | 0 <= i < |cells| :: CellString(cells[i])
  }

  /**
    A row replayed through Row::write and rebuilt by the builder has the
    same size and the same text at every index: NULL cells come back as
    stored empty texts.
  */
  lemma RowRoundTrip(cols: map<nat, string>)
    ensures SizeOf(Filled(RowCells(cols))) == SizeOf(cols)
    ensures forall i :: 0 <= i < SizeOf(cols) ==> TextOf(GetValue(Filled(RowCells(cols)), i)) == TextOf(GetValue(cols, i))
  {
    var f := Filled(RowCells(cols));
    var n := SizeOf(cols);
    if n > 0 {
      assert n - 1 in f;
      assert SizeOf(f) == n;
    } else {
      assert f == map[];
    }
  }

  // ---------------------------------------------------------------------

  class Row {
    var ridx: nat
    var columns: map<nat, string>

    constructor (ridx: nat)
      ensures this.ridx == ridx && columns == map[]
    {
      this.ridx := ridx;
      columns := map[];
    }

    function Size(): nat
      reads this
    {
      SizeOf(columns)
    }

    function Get(cidx: nat): Option<string>
      reads this
    {
      GetValue(columns, cidx)
    }

    method Set(cidx: nat, a: Assign)
      modifies this
      ensures columns == SetColumn(old(columns), cidx, a) && ridx == old(ridx)
    {
      if a.Delete? {
        columns := columns - {cidx};
        return;
      }
      if cidx !in columns {
        columns := columns[cidx := a.text];
      }
    }

    /** Row::write: begin_row, one cell per index 0 .. size-1 (NULL where unset), end_row. */
    method Write() returns (es: seq<Event>)
      ensures es == RowEvents(RowCells(columns))
    {
      var cells := RowCells(columns);
      es := [BeginRow];
      var clen := Size();
      var i := 0;
      while i < clen
        invariant 0 <= i <= clen && |es| == i + 1 && es[0] == BeginRow
        invariant forall k :: 0 <= k < i ==> es[k + 1] == CellEvent(cells[k])
      {
        var v := Get(i);
        if v.None? {
          es := es + [CellEvent(None)];
        } else {
          es := es + [CellEvent(Some(v.value))];
        }
        i := i + 1;
      }
      es := es + [EndRow];
      assert es[1..|es| - 1] == CellEvents(cells);
    }
  }

  // ---------------------------------------------------------------------
  // Header index

  /** find_column's answer: the first index registered under name, or -1. */
  function FirstIndex(names: seq<string>, name: string): (r: int)
    ensures -1 <= r < |names|
    ensures r == -1 <==> name !in names
    ensures r >= 0 ==> names[r] == name && forall j :: 0 <= j < r ==> names[j] != name
  {
    if names == [] then -1
    else if names[|names| - 1] == name && FirstIndex(names[..|names| - 1], name) == -1 then |names| - 1
    else FirstIndex(names[..|names| - 1], name)
  }

  /** rev_column as the multimap's find sees it: each name at its first index. */
  ghost predicate IndexOf(names: seq<string>, rev: map<string, nat>)
  {
    forall name :: (name in rev <==> name in names)
      && (name in rev ==> rev[name] == FirstIndex(names, name))
  }

  /** The header cells Table::write emits for names. */
  function HeaderCells(names: seq<string>): (cells: seq<Cell>)
    ensures |cells| == |names| && forall i :: 0 <= i < |names| ==> cells[i] == Some(names[i])
  {
    seq(|names|, i requires 0 <= i < |names| => Some(names[i]))
  }

  /** The header part of Table::write as written: its loop runs to the row count. */
  function HeaderCellsAsWritten(names: seq<string>, rowCount: nat): Option<seq<Cell>>
  {
    if rowCount > |names| then None  // columnnames[iA] read past its end
    else Some(HeaderCells(names[..rowCount]))
  }

  /** With two header names and one row the header line loses its second name; with three rows it reads past the names. */
  lemma HeaderBoundedByRows()
    ensures HeaderCellsAsWritten(["a", "b"], 1) == Some([Some("a")])
    ensures HeaderCellsAsWritten(["a", "b"], 1) != Some(HeaderCells(["a", "b"]))
    ensures HeaderCellsAsWritten(["a", "b"], 3) == None
  {
    assert ["a", "b"][..1] == ["a"];
    assert HeaderCells(["a"]) == [Some("a")];
    assert |HeaderCells(["a", "b"])| == 2;
  }

  /** The events of rows written in turn. */
  function RowsEvents(contents: seq<map<nat, string>>): seq<Event>
  {
    TableEvents(AllCells(contents))
  }

  /** The cells of each row, as Row::write hands them on. */
  function AllCells(contents: seq<map<nat, string>>): (rs: seq<seq<Cell>>)
    ensures |rs| == |contents| && forall i :: 0 <= i < |contents| ==> rs[i] == RowCells(contents[i])
  {
    seq(|contents|, i requires 0 <= i < |contents| => RowCells(contents[i]))
  }

  /** Table::write with its header line taken from every name. */
  function TableWriteEvents(names: seq<string>, contents: seq<map<nat, string>>, withHeader: bool): seq<Event>
  {
    (if withHeader then RowEvents(HeaderCells(names)) else []) + RowsEvents(contents)
  }

  // ---------------------------------------------------------------------

  class Table {
    var rows: seq<Row>
    var columnNames: seq<string>
    var revColumn: map<string, nat>

    /**
      Every row knows its position, no row is held twice, and the name index
      answers for the header.
    */
    ghost predicate Valid()
      reads this, rows
    {
      (forall i :: 0 <= i < |rows| ==> rows[i].ridx == i)
      && (forall i, j :: 0 <= i < j < |rows| ==> rows[i] != rows[j])
      && IndexOf(columnNames, revColumn)
    }

    /** The rows' column maps, in order. */
    function Contents(): (cs: seq<map<nat, string>>)
      reads this, rows
      ensures |cs| == |rows| && forall i :: 0 <= i < |rows| ==> cs[i] == rows[i].columns
    {
      seq(|rows|, i reads this, rows requires 0 <= i < |rows| => rows[i].columns)
    }

    constructor ()
      ensures Valid() && rows == [] && columnNames == []
    {
      rows, columnNames, revColumn := [], [], map[];
    }

    function Size(): nat
      reads this
    {
      |rows|
    }

    /** Table::operator[]: the row at ridx, or None for the shared empty row. */
    function RowAt(ridx: nat): (r: Option<Row>)
      requires Valid()
      reads this, rows
      ensures r.Some? <==> ridx < |rows|
      ensures r.Some? ==> r.value == rows[ridx] && r.value.ridx == ridx
    {
      if ridx >= |rows| then None else Some(rows[ridx])
    }

    /** find_column: the first header index of name, or -1. */
    function FindColumn(name: string): (r: int)
      requires Valid()
      reads this, rows
      ensures r == -1 <==> name !in columnNames
      ensures r >= 0 ==> r < |columnNames| && columnNames[r] == name
      ensures r >= 0 ==> forall j :: 0 <= j < r ==> columnNames[j] != name
    {
      if name in revColumn then revColumn[name] else -1
    }

    /** Row::operator[](key): the value under a header name; an unknown name gives the empty value. */
    function ValueByName(row: Row, name: string): (r: Option<string>)
      requires Valid()
      reads this, rows, row
      ensures name !in columnNames ==> r == None
      ensures name in columnNames ==> r == GetValue(row.columns, FindColumn(name))
    {
      var cidx := FindColumn(name);
      if cidx == -1 then None else row.Get(cidx)
    }

    /** IBuild::newRow: a new empty row at the end, numbered by the previous row count. */
    method NewRow() returns (r: Row)
      requires Valid()
      modifies this
      ensures fresh(r) && rows == old(rows) + [r] && r.ridx == |old(rows)| && r.columns == map[]
      ensures columnNames == old(columnNames) && revColumn == old(revColumn)
      ensures Valid() && Contents() == old(Contents()) + [map[]]
    {
      r := new Row(|rows|);
      rows := rows + [r];
    }

    /**
      IBuild::insertRow: below the row count, a new empty row at position at
      with every later row renumbered; otherwise empty rows appended up to
      position at, the last one returned.
    */
    method InsertRow(at: nat) returns (r: Row)
      requires Valid()
      modifies this, rows
      ensures at < |old(rows)| ==> fresh(r) && rows == old(rows)[..at] + [r] + old(rows)[at..]
      ensures at < |old(rows)| ==> Contents() == old(Contents())[..at] + [map[]] + old(Contents())[at..]
      ensures at >= |old(rows)| ==> |rows| == at + 1 && rows[..|old(rows)|] == old(rows) && r == rows[at]
      ensures at >= |old(rows)| ==> Contents() == old(Contents()) + seq(at + 1 - |old(rows)|, _ => map[])
      ensures columnNames == old(columnNames) && revColumn == old(revColumn)
      ensures Valid()
    {
      if at < |rows| {
        r := InsertInside(at);
      } else {
        r := AppendThrough(at);
      }
    }

    /** The first branch of insertRow: a new row at position at, later rows renumbered. */
    method InsertInside(at: nat) returns (r: Row)
      requires Valid() && at < |rows|
      modifies this, rows
      ensures fresh(r) && rows == old(rows)[..at] + [r] + old(rows)[at..]
      ensures Contents() == old(Contents())[..at] + [map[]] + old(Contents())[at..]
      ensures columnNames == old(columnNames) && revColumn == old(revColumn)
      ensures Valid()
    {
      ghost var before := Contents();
      r := new Row(at);
      rows := rows[..at] + [r] + rows[at..];
      ghost var after := before[..at] + [map[]] + before[at..];
      forall k | 0 <= k < |rows|
        ensures Contents()[k] == after[k]
      {
        if k > at {
          assert rows[k] == old(rows)[k - 1];
        }
      }
      assert forall k, j :: 0 <= k < j < |rows| ==> rows[k] != rows[j];
      Renumber(at + 1, 1);
    }

    /** The second branch of insertRow: empty rows appended up to position at. */
    method AppendThrough(at: nat) returns (r: Row)
      requires Valid() && at >= |rows|
      modifies this
      ensures |rows| == at + 1 && rows[..|old(rows)|] == old(rows) && r == rows[at]
      ensures Contents() == old(Contents()) + seq(at + 1 - |old(rows)|, _ => map[])
      ensures columnNames == old(columnNames) && revColumn == old(revColumn)
      ensures Valid()
    {
      ghost var before := Contents();
      var i := |rows|;
      while i <= at
        invariant |old(rows)| <= i <= at + 1 && |rows| == i && |before| == |old(rows)|
        invariant rows[..|old(rows)|] == old(rows)
        invariant forall k :: 0 <= k < |rows| ==> rows[k].ridx == k
        invariant forall k :: 0 <= k < |rows| ==> rows[k].columns == (if k < |before| then before[k] else map[])
        invariant forall k, j :: 0 <= k < j < |rows| ==> rows[k] != rows[j]
        invariant columnNames == old(columnNames) && revColumn == old(revColumn)
      {
        var added := new Row(i);
        rows := rows + [added];
        i := i + 1;
      }
      r := rows[|rows| - 1];
    }

    /** IBuild::deleteRow: out of range a no-op, otherwise the row removed and later rows renumbered. */
    method DeleteRow(ridx: nat)
      requires Valid()
      modifies this, rows
      ensures ridx >= |old(rows)| ==> rows == old(rows) && Contents() == old(Contents())
      ensures ridx < |old(rows)| ==> rows == old(rows)[..ridx] + old(rows)[ridx + 1..]
      ensures ridx < |old(rows)| ==> Contents() == old(Contents())[..ridx] + old(Contents())[ridx + 1..]
      ensures columnNames == old(columnNames) && revColumn == old(revColumn)
      ensures Valid()
    {
      if ridx >= |rows| {
        return;
      }
      ghost var before := Contents();
      rows := rows[..ridx] + rows[ridx + 1..];
      ghost var after := before[..ridx] + before[ridx + 1..];
      forall k | 0 <= k < |rows|
        ensures Contents()[k] == after[k]
      {
        if k >= ridx {
          assert rows[k] == old(rows)[k + 1];
        }
      }
      assert forall k, j :: 0 <= k < j < |rows| ==> rows[k] != rows[j];
      Renumber(ridx, -1);
    }

    /**
      The renumbering loop of insertRow and deleteRow: the rows from position
      from on, numbered shift below their position, are given their position.
    */
    method Renumber(from: nat, shift: int)
      requires from <= |rows|
      requires forall k, j :: 0 <= k < j < |rows| ==> rows[k] != rows[j]
      requires forall k :: 0 <= k < from ==> rows[k].ridx == k
      requires forall k :: from <= k < |rows| ==> rows[k].ridx == k - shift
      modifies rows
      ensures forall k :: 0 <= k < |rows| ==> rows[k].ridx == k
      ensures Contents() == old(Contents())
    {
      ghost var before := Contents();
      var i := from;
      while i < |rows|
        invariant from <= i <= |rows|
        invariant forall k :: 0 <= k < i ==> rows[k].ridx == k
        invariant forall k :: i <= k < |rows| ==> rows[k].ridx == k - shift
        invariant Contents() == before
      {
        ghost var cols := Contents();
        rows[i].ridx := rows[i].ridx + shift;
        assert Contents() == cols;
        i := i + 1;
      }
    }

    /** IBuild::setHeader: the names replace any previous header, each findable at its first index. */
    method SetHeader(names: seq<string>)
      requires Valid()
      modifies this
      ensures columnNames == names && rows == old(rows)
      ensures Valid()
    {
      var rev := IndexNames(names);
      columnNames, revColumn := names, rev;
    }

    /** Table::write with the header line covering every name. */
    method Write(withHeader: bool) returns (es: seq<Event>)
      requires Valid()
      ensures es == TableWriteEvents(columnNames, Contents(), withHeader)
    {
      es := [];
      if withHeader {
        es := HeaderEvents(columnNames);
      }
      var body := WriteRows();
      es := es + body;
    }

    /** The data rows of Table::write, each as Row::write hands it on. */
    method WriteRows() returns (es: seq<Event>)
      ensures es == RowsEvents(Contents())
    {
      es := [];
      ghost var all := AllCells(Contents());
      var j := 0;
      while j < |rows|
        invariant 0 <= j <= |rows|
        invariant es + TableEvents(all[j..]) == TableEvents(all)
      {
        var rowEvents := rows[j].Write();
        assert rowEvents == RowEvents(all[j]);
        TableEventsSplit(all, j);
        es := es + rowEvents;
        j := j + 1;
      }
      assert all[j..] == [];
    }
  }

  /** The header line of Table::write: one cell per name, in order. */
  method HeaderEvents(names: seq<string>) returns (es: seq<Event>)
    ensures es == RowEvents(HeaderCells(names))
  {
    es := [BeginRow];
    var i := 0;
    while i < |names|
      invariant 0 <= i <= |names|
      invariant es == [BeginRow] + CellEvents(HeaderCells(names)[..i])
    {
      assert CellEvents(HeaderCells(names)[..i] + [Some(names[i])]) == CellEvents(HeaderCells(names)[..i]) + [CellEvent(Some(names[i]))];
      assert HeaderCells(names)[..i + 1] == HeaderCells(names)[..i] + [Some(names[i])];
      es := es + [CellEvent(Some(names[i]))];
      i := i + 1;
    }
    assert HeaderCells(names)[..i] == HeaderCells(names);
    es := es + [EndRow];
  }

  /** The name index setHeader builds: each name mapped to its first position. */
  method IndexNames(names: seq<string>) returns (rev: map<string, nat>)
    ensures IndexOf(names, rev)
  {
    rev := map[];
    var i := 0;
    while i < |names|
      invariant 0 <= i <= |names|
      invariant IndexOf(names[..i], rev)
    {
      HeaderIndexAppend(names[..i], rev, names[i]);
      if names[i] !in rev {
        rev := rev[names[i] := i];
      }
      assert names[..i + 1] == names[..i] + [names[i]];
      i := i + 1;
    }
    assert names[..|names|] == names;
  }

  lemma TableEventsSplit(all: seq<seq<Cell>>, j: nat)
    requires j < |all|
    ensures TableEvents(all[j..]) == RowEvents(all[j]) + TableEvents(all[j + 1..])
  {
    assert all[j..][1..] == all[j + 1..];
  }

  lemma HeaderIndexAppend(names: seq<string>, rev: map<string, nat>, name: string)
    requires IndexOf(names, rev)
    ensures IndexOf(names + [name], if name in rev then rev else rev[name := |names|])
  {
    var names' := names + [name];
    assert names'[..|names|] == names;
    forall n
      ensures n in names' <==> n in names || n == name
    {
      if n in names' {
        var j :| 0 <= j < |names'| && names'[j] == n;
        if j < |names| {
          assert names[j] == n;
        }
      }
    }
  }

  // ---------------------------------------------------------------------
  // builder

  /** The builder's fields and the table they fill, as values. */
  datatype BuildState = BuildState(asHeader: bool, header: seq<string>, hasRow: bool, cidx: int,
                                   names: seq<string>, rows: seq<map<nat, string>>)

  /** Whether builder::cell may be called: in header mode, or with a current row. */
  predicate CellAllowed(st: BuildState)
  {
    st.asHeader || (st.hasRow && st.cidx >= 0 && |st.rows| > 0)
  }

  function BuildBegin(st: BuildState): BuildState
  {
    if st.asHeader then st.(hasRow := false)
    else st.(hasRow := true, cidx := 0, rows := st.rows + [map[]])
  }

  function BuildCell(st: BuildState, c: Cell): BuildState
    requires CellAllowed(st)
  {
    if st.asHeader then st.(header := st.header + [CellString(c)])
    else
      var last := |st.rows| - 1;
      st.(rows := st.rows[last := Insert(st.rows[last], st.cidx, CellString(c))], cidx := st.cidx + 1)
  }

  function BuildEnd(st: BuildState): BuildState
  {
    if st.asHeader then st.(names := st.header, header := [], asHeader := false) else st
  }

  /** The builder fed a run of events; None where a cell arrives with no row (the failed assert(row)). */
  function BuildRun(st: BuildState, es: seq<Event>): Option<BuildState>
    decreases |es|
  {
    if es == [] then Some(st)
    else match es[0]
      case BeginRow => BuildRun(BuildBegin(st), es[1..])
      case EndRow => BuildRun(BuildEnd(st), es[1..])
      case CellEvent(c) => if CellAllowed(st) then BuildRun(BuildCell(st, c), es[1..]) else None
  }

  lemma {:induction false} BuildRunAppend(st: BuildState, a: seq<Event>, b: seq<Event>)
    ensures BuildRun(st, a + b) == match BuildRun(st, a) case None => None case Some(s) => BuildRun(s, b)
    decreases |a|
  {
    if a == [] {
      assert a + b == b;
    } else {
      assert (a + b)[0] == a[0] && (a + b)[1..] == a[1..] + b;
      match a[0]
      case BeginRow => BuildRunAppend(BuildBegin(st), a[1..], b);
      case EndRow => BuildRunAppend(BuildEnd(st), a[1..], b);
      case CellEvent(c) =>
        if CellAllowed(st) {
          BuildRunAppend(BuildCell(st, c), a[1..], b);
        }
    }
  }

  /** The texts of a run of cells. */
  function Strings(cells: seq<Cell>): (r: seq<string>)
    ensures |r| == |cells|
  {
    if cells == [] then [] else [CellString(cells[0])] + Strings(cells[1..])
  }

  lemma {:induction false} StringsAt(cells: seq<Cell>, i: nat)
    requires i < |cells|
    ensures Strings(cells)[i] == CellString(cells[i])
  {
    if i > 0 {
      StringsAt(cells[1..], i - 1);
    }
  }

  lemma BuildRunCell(st: BuildState, cells: seq<Cell>)
    requires CellAllowed(st) && cells != []
    ensures BuildRun(st, CellEvents(cells)) == BuildRun(BuildCell(st, cells[0]), CellEvents(cells[1..]))
  {
    var es := CellEvents(cells);
    assert es[0] == CellEvent(cells[0]);
    assert es[1..] == CellEvents(cells[1..]);
  }

  /** A header cell appends its text to the pending header. */
  lemma BuildRunHeaderCell(st: BuildState, cells: seq<Cell>)
    requires st.asHeader && cells != []
    ensures BuildRun(st, CellEvents(cells))
      == BuildRun(st.(header := st.header + [CellString(cells[0])]), CellEvents(cells[1..]))
  {
    BuildRunCell(st, cells);
  }

  lemma StringsHeader(names: seq<string>)
    ensures Strings(HeaderCells(names)) == names
  {
    var cells := HeaderCells(names);
    forall i | 0 <= i < |names|
      ensures Strings(cells)[i] == names[i]
    {
      StringsAt(cells, i);
    }
  }

  lemma {:induction false} HeaderCellsRun(st: BuildState, cells: seq<Cell>)
    requires st.asHeader
    ensures BuildRun(st, CellEvents(cells)) == Some(st.(header := st.header + Strings(cells)))
    decreases |cells|
  {
    if cells == [] {
      assert st.header + Strings(cells) == st.header;
    } else {
      var st' := st.(header := st.header + [CellString(cells[0])]);
      assert st'.header + Strings(cells[1..]) == st.header + Strings(cells) by {
        assert Strings(cells) == [CellString(cells[0])] + Strings(cells[1..]);
      }
      BuildRunHeaderCell(st, cells);
      HeaderCellsRun(st', cells[1..]);
    }
  }

  lemma FilledSnoc(done: seq<Cell>, c: Cell)
    ensures Insert(Filled(done), |done|, CellString(c)) == Filled(done + [c])
  {
    assert Insert(Filled(done), |done|, CellString(c)) == Filled(done + [c]);
  }

  /** Cells stored one after another from index k on, as builder::cell does. */
  function PutAll(row: map<nat, string>, k: nat, cells: seq<Cell>): map<nat, string>
    decreases |cells|
  {
    if cells == [] then row else PutAll(Insert(row, k, CellString(cells[0])), k + 1, cells[1..])
  }

  lemma {:induction false} FilledPutAll(done: seq<Cell>, cells: seq<Cell>)
    ensures PutAll(Filled(done), |done|, cells) == Filled(done + cells)
    decreases |cells|
  {
    if cells == [] {
      assert done + cells == done;
    } else {
      var done' := done + [cells[0]];
      assert PutAll(Filled(done), |done|, cells) == PutAll(Filled(done'), |done'|, cells[1..]) by {
        FilledSnoc(done, cells[0]);
      }
      assert done' + cells[1..] == done + cells;
      FilledPutAll(done', cells[1..]);
    }
  }

  lemma {:induction false} DataCellsRunFrom(st: BuildState, k: nat, cells: seq<Cell>)
    requires !st.asHeader && st.hasRow && |st.rows| > 0 && st.cidx == k
    ensures BuildRun(st, CellEvents(cells))
      == Some(st.(cidx := k + |cells|, rows := st.rows[|st.rows| - 1 := PutAll(st.rows[|st.rows| - 1], k, cells)]))
    decreases |cells|
  {
    var last := |st.rows| - 1;
    var row := st.rows[last];
    if cells == [] {
      assert st.rows[last := row] == st.rows;
    } else {
      var row' := Insert(row, k, CellString(cells[0]));
      var st' := st.(rows := st.rows[last := row'], cidx := k + 1);
      assert BuildCell(st, cells[0]) == st';
      BuildRunCell(st, cells);
      var full := PutAll(row, k, cells);
      assert PutAll(row', k + 1, cells[1..]) == full;
      assert st'.rows[last := full] == st.rows[last := full] by {
        assert st.rows[last := row'][last := full] == st.rows[last := full];
      }
      DataCellsRunFrom(st', k + 1, cells[1..]);
    }
  }

  /** A data row: a new table row holding cell i at index i. */
  lemma DataRowRun(st: BuildState, cells: seq<Cell>)
    requires !st.asHeader
    ensures BuildRun(st, RowEvents(cells))
      == Some(st.(hasRow := true, cidx := |cells|, rows := st.rows + [Filled(cells)]))
  {
    var st1 := BuildBegin(st);
    var st2 := st.(hasRow := true, cidx := |cells|, rows := st.rows + [Filled(cells)]);
    assert BuildRun(st, RowEvents(cells)) == BuildRun(st1, CellEvents(cells) + [EndRow]) by {
      var es := RowEvents(cells);
      assert es[0] == BeginRow && es[1..] == CellEvents(cells) + [EndRow];
    }
    assert BuildRun(st1, CellEvents(cells)) == Some(st2) by {
      assert PutAll(map[], 0, cells) == Filled(cells) by {
        assert Filled([]) == map[];
        FilledPutAll([], cells);
        assert [] + cells == cells;
      }
      DataCellsRunFrom(st1, 0, cells);
      assert st1.rows[|st1.rows| - 1 := Filled(cells)] == st.rows + [Filled(cells)];
    }
    BuildRunAppend(st1, CellEvents(cells), [EndRow]);
    assert BuildRun(st2, [EndRow]) == Some(st2);
  }

  /** The header row: its texts become the header and no table row is made. */
  lemma HeaderRowRun(st: BuildState, cells: seq<Cell>)
    requires st.asHeader && st.header == []
    ensures BuildRun(st, RowEvents(cells))
      == Some(st.(hasRow := false, asHeader := false, header := [], names := Strings(cells)))
  {
    var st1 := BuildBegin(st);
    var es := RowEvents(cells);
    assert es[0] == BeginRow && es[1..] == CellEvents(cells) + [EndRow];
    BuildRunAppend(st1, CellEvents(cells), [EndRow]);
    HeaderCellsRun(st1, cells);
    assert [] + Strings(cells) == Strings(cells);
  }

  /** The rows the builder makes of rows of cells. */
  function FilledAll(rs: seq<seq<Cell>>): (ms: seq<map<nat, string>>)
    ensures |ms| == |rs|
  {
    if rs == [] then [] else [Filled(rs[0])] + FilledAll(rs[1..])
  }

  lemma {:induction false} FilledAllAt(rs: seq<seq<Cell>>, i: nat)
    requires i < |rs|
    ensures FilledAll(rs)[i] == Filled(rs[i])
  {
    if i > 0 {
      FilledAllAt(rs[1..], i - 1);
    }
  }

  lemma {:induction false} DataRowsRun(st: BuildState, rs: seq<seq<Cell>>)
    requires !st.asHeader
    ensures BuildRun(st, TableEvents(rs)).Some?
    ensures BuildRun(st, TableEvents(rs)).value.rows == st.rows + FilledAll(rs)
    ensures BuildRun(st, TableEvents(rs)).value.names == st.names
    ensures !BuildRun(st, TableEvents(rs)).value.asHeader
    decreases |rs|
  {
    if rs == [] {
      assert st.rows + FilledAll(rs) == st.rows;
    } else {
      var st1 := st.(hasRow := true, cidx := |rs[0]|, rows := st.rows + [Filled(rs[0])]);
      assert BuildRun(st, TableEvents(rs)) == BuildRun(st1, TableEvents(rs[1..])) by {
        assert TableEvents(rs) == RowEvents(rs[0]) + TableEvents(rs[1..]);
        BuildRunAppend(st, RowEvents(rs[0]), TableEvents(rs[1..]));
        DataRowRun(st, rs[0]);
      }
      assert st1.rows + FilledAll(rs[1..]) == st.rows + FilledAll(rs) by {
        assert FilledAll(rs) == [Filled(rs[0])] + FilledAll(rs[1..]);
      }
      DataRowsRun(st1, rs[1..]);
    }
  }

  /** The builder's starting state over an empty table. */
  function BuildStart(firstIsHeader: bool): BuildState
  {
    BuildState(firstIsHeader, [], false, -1, [], [])
  }

  /**
    builder with first_is_header: the first row's texts become the header
    and every later row one table row holding cell i at index i; without
    it, every row is a table row.
  */
  lemma BuildTable(firstIsHeader: bool, head: seq<Cell>, rs: seq<seq<Cell>>)
    ensures var es := (if firstIsHeader then RowEvents(head) else []) + TableEvents(rs);
      BuildRun(BuildStart(firstIsHeader), es).Some?
      && BuildRun(BuildStart(firstIsHeader), es).value.names == (if firstIsHeader then Strings(head) else [])
      && BuildRun(BuildStart(firstIsHeader), es).value.rows == FilledAll(rs)
  {
    var st := BuildStart(firstIsHeader);
    if firstIsHeader {
      BuildRunAppend(st, RowEvents(head), TableEvents(rs));
      HeaderRowRun(st, head);
      DataRowsRun(BuildRun(st, RowEvents(head)).value, rs);
    } else {
      assert [] + TableEvents(rs) == TableEvents(rs);
      DataRowsRun(st, rs);
    }
  }

  /**
    A table written with its header and read back by a builder with
    first_is_header has the same header names, as many rows of the same
    sizes, and the same text at every index.
  */
  lemma WriteThenBuild(names: seq<string>, contents: seq<map<nat, string>>)
    ensures var r := BuildRun(BuildStart(true), TableWriteEvents(names, contents, true));
      r.Some? && r.value.names == names && |r.value.rows| == |contents|
      && forall i :: 0 <= i < |contents| ==>
           SizeOf(r.value.rows[i]) == SizeOf(contents[i])
           && forall k :: 0 <= k < SizeOf(contents[i]) ==>
                TextOf(GetValue(r.value.rows[i], k)) == TextOf(GetValue(contents[i], k))
  {
    BuildTable(true, HeaderCells(names), AllCells(contents));
    StringsHeader(names);
    forall i | 0 <= i < |contents|
      ensures FilledAll(AllCells(contents))[i] == Filled(RowCells(contents[i]))
    {
      FilledAllAt(AllCells(contents), i);
    }
    forall i | 0 <= i < |contents|
      ensures SizeOf(Filled(RowCells(contents[i]))) == SizeOf(contents[i])
      ensures forall k :: 0 <= k < SizeOf(contents[i]) ==>
        TextOf(GetValue(Filled(RowCells(contents[i])), k)) == TextOf(GetValue(contents[i], k))
    {
      RowRoundTrip(contents[i]);
    }
  }

  class Builder {
    const result: Table
    var row: Row?
    var cidx: int
    var asHeader: bool
    var header: seq<string>

    /** The table is well formed and the current row, if any, is its last. */
    ghost predicate Valid()
      reads this, result, result.rows
    {
      result.Valid()
      && (row != null ==> cidx >= 0 && |result.rows| > 0 && row == result.rows[|result.rows| - 1])
    }

    function Snapshot(): BuildState
      reads this, result, result.rows
    {
      BuildState(asHeader, header, row != null, cidx, result.columnNames, result.Contents())
    }

    constructor (result: Table, firstIsHeader: bool)
      requires result.Valid()
      ensures this.result == result && Valid()
      ensures Snapshot() == BuildState(firstIsHeader, [], false, -1, result.columnNames, result.Contents())
    {
      this.result := result;
      row := null;
      cidx := -1;
      asHeader := firstIsHeader;
      header := [];
    }

    method BeginRow()
      requires Valid()
      modifies this, result
      ensures Valid() && Snapshot() == BuildBegin(old(Snapshot()))
    {
      if asHeader {
        row := null;
        return;
      }
      row := result.NewRow();
      cidx := 0;
    }

    method Cell(c: Cell)
      requires Valid() && CellAllowed(Snapshot())
      modifies this, row
      ensures Valid() && Snapshot() == BuildCell(old(Snapshot()), c)
    {
      if asHeader {
        header := header + [CellString(c)];
        return;
      }
      ghost var before := result.Contents();
      ghost var last := |result.rows| - 1;
      row.Set(cidx, Put(CellString(c)));
      cidx := cidx + 1;
      assert forall k :: 0 <= k < last ==> result.rows[k] != row;
      assert result.Contents() == before[last := row.columns];
    }

    method EndRow()
      requires Valid()
      modifies this, result
      ensures Valid() && Snapshot() == BuildEnd(old(Snapshot()))
    {
      if asHeader {
        result.SetHeader(header);
        header := [];
        asHeader := false;
      }
    }
  }
}
