/** The report rows of `ReportUtil`: the header row, one row per status
    record with its extra columns, the auto-filter range, and `whatFileName`,
    which numbers a report name by counting the earlier reports of that name.
    The import command carries its own copy of the row and auto-filter code,
    which these members model as well. Workbook reading and writing are
    library I/O; the rows written are modelled. */
module ReportUtil {
  import opened Strings
  import opened Options

  /** A value of a row's `report` object, as far as the report reads it.
      Numbers are integers here; an object or array carries the text
      `JSON.stringify` gives it. */
  datatype Value = Str(s: string) | Num(n: int) | Bool(b: bool) | Null | Obj(json: string)

  /** JavaScript truthiness of a report value. */
  predicate Truthy(v: Value) {
    match v
    case Str(s) => s != ""
    case Num(n) => n != 0
    case Bool(b) => b
    case Null => false
    case Obj(_) => true
  }

  /** `s` is the decimal text of the integer `n`: its digits, after a '-'
      when `n` is negative. */
  predicate DenotesInt(s: string, n: int) {
    if n >= 0 then IsDigits(s) && DigitsValue(s) == n
    else |s| >= 2 && s[0] == '-' && IsDigits(s[1..]) && DigitsValue(s[1..]) == -n
  }

  /** The text JavaScript gives an integer. */
  function IntToString(n: int): (s: string)
    ensures DenotesInt(s, n)
  {
    if n < 0 then
      var d := NatToString(-n);
      NatToStringValue(-n);
      assert ("-" + d)[1..] == d;
      "-" + d
    else
      NatToStringValue(n);
      NatToString(n)
  }

  /** `JSON.stringify` of a truthy non-string value. */
  function Stringify(v: Value): (s: string)
    requires !v.Str?
    ensures v.Num? ==> DenotesInt(s, v.n)
    ensures v.Null? ==> s == "null"
    ensures v.Bool? ==> s == (if v.b then "true" else "false")
    ensures v.Obj? ==> s == v.json
  {
    match v
    case Num(n) => IntToString(n)
    case Bool(b) => if b then "true" else "false"
    case Null => "null"
    case Obj(json) => json
  }

  /** A worksheet cell: plain text, a formula with its cached value, or
      nothing (a field the record does not have). */
  datatype Cell = Text(text: string) | Formula(formula: string, value: string) | Empty

  /** `s.replace(/=/, r)`: the first '=' replaced by `r`; no '=' leaves the
      string as it is. */
  function ReplaceFirstEquals(s: string, r: string): (t: string)
    ensures '=' !in s ==> t == s
    ensures |s| >= 1 && s[0] == '=' ==> t == r + s[1..]
  {
    if s == [] then s
    else if s[0] == '=' then r + s[1..]
    else [s[0]] + ReplaceFirstEquals(s[1..], r)
  }

  /** The cell for one truthy value: a string starting with '=' becomes a
      formula whose '=' is replaced by `_xlfn.` with the value '', any other
      string is copied, anything else is JSON text. */
  function ExtraCell(v: Value): (c: Cell)
    ensures v.Str? && StartsWith(v.s, "=") ==> c == Formula("_xlfn." + v.s[1..], "")
    ensures v.Str? && !StartsWith(v.s, "=") ==> c == Text(v.s)
    ensures !v.Str? ==> c == Text(Stringify(v))
  {
    match v
    case Str(s) =>
      if StartsWith(s, "=") then Formula(ReplaceFirstEquals(s, "_xlfn."), "")
      else Text(s)
    case _ => Text(Stringify(v))
  }

  /** The extra cells of a row: for each column of `extraCols`, in order, a
      cell when the row's report has a truthy value there; nothing at all
      without a report. (Defined from the back, as the loop builds it.) */
  function Extras(report: Option<map<string, Value>>, cols: seq<string>): seq<Cell>
  {
    if report.None? || cols == [] then []
    else
      var col := cols[|cols| - 1];
      var prev := Extras(report, cols[..|cols| - 1]);
      if col in report.value && Truthy(report.value[col]) then prev + [ExtraCell(report.value[col])] else prev
  }

  /** The columns whose value is truthy, in order: the reference the extras
      are checked against. */
  function TruthyCols(report: map<string, Value>, cols: seq<string>): (t: seq<string>)
    ensures |t| <= |cols|
    ensures forall c :: c in t ==> c in cols && c in report && Truthy(report[c])
    ensures forall c :: c in cols && c in report && Truthy(report[c]) ==> c in t
  {
    if cols == [] then []
    else
      var col := cols[|cols| - 1];
      var prev := TruthyCols(report, cols[..|cols| - 1]);
      assert forall c :: c in cols ==> c in cols[..|cols| - 1] || c == col;
      if col in report && Truthy(report[col]) then prev + [col] else prev
  }

  /** The extras of columns `a + b` are those of `a` followed by those of `b`. */
  lemma {:induction false} ExtrasAppend(report: Option<map<string, Value>>, a: seq<string>, b: seq<string>)
    ensures Extras(report, a + b) == Extras(report, a) + Extras(report, b)
    decreases |b|
  {
    if b == [] {
      assert a + b == a;
    } else if report.Some? {
      var b' := b[..|b| - 1];
      assert (a + b)[..|a + b| - 1] == a + b';
      assert (a + b)[|a + b| - 1] == b[|b| - 1];
      ExtrasAppend(report, a, b');
    }
  }

  /** One cell per truthy column, in column order, and no cell for a falsy
      or missing value. */
  lemma {:induction false} ExtrasAreTruthyColumns(report: map<string, Value>, cols: seq<string>)
    ensures var t := TruthyCols(report, cols);
      && |Extras(Some(report), cols)| == |t|
      && forall i :: 0 <= i < |t| ==> t[i] in report && Extras(Some(report), cols)[i] == ExtraCell(report[t[i]])
  {
    if cols != [] {
      ExtrasAreTruthyColumns(report, cols[..|cols| - 1]);
    }
  }

  /** A row without a report has no extras. */
  lemma NoReportNoExtras(cols: seq<string>)
    ensures Extras(None, cols) == []
  {
  }

  /** The loop of `writeReportWorksheet` that pushes the extra cells of one
      row. */
  method BuildExtras(report: Option<map<string, Value>>, extraCols: seq<string>) returns (extra: seq<Cell>)
    ensures extra == Extras(report, extraCols)
    ensures report.Some? ==> |extra| == |TruthyCols(report.value, extraCols)|
  {
    extra := [];
    if report.Some? {
      var rep := report.value;
      for k := 0 to |extraCols|
        invariant extra == Extras(report, extraCols[..k])
      {
        var col := extraCols[k];
        assert extraCols[..k + 1][..k] == extraCols[..k];
        if col in rep && Truthy(rep[col]) {
          extra := extra + [ExtraCell(rep[col])];
        }
      }
      assert extraCols[..|extraCols|] == extraCols;
      ExtrasAreTruthyColumns(rep, extraCols);
    }
  }

  /** One status record. Only `url` and `status` are always present. */
  datatype StatusRow = StatusRow(
    url: string, path: Option<string>, file: Option<string>, status: string,
    redirect: Option<string>, report: Option<map<string, Value>>)

  /** The status being reported: its rows and the extra columns collected
      while importing. */
  datatype ReportStatus = ReportStatus(rows: seq<StatusRow>, extraCols: seq<string>)

  /** `s || ''`. */
  function OrEmpty(s: Option<string>): string {
    if s.Some? then s.value else ""
  }

  /** A field written as it is: an absent one leaves the cell empty. */
  function FieldCell(s: Option<string>): Cell {
    if s.Some? then Text(s.value) else Empty
  }

  /** The cells of one row: url, path, file or '', status, redirect or '',
      then the extras. */
  function RowCells(row: StatusRow, extraCols: seq<string>): (cells: seq<Cell>)
    ensures |cells| >= 5
    ensures cells[..5] == [Text(row.url), FieldCell(row.path), Text(OrEmpty(row.file)), Text(row.status), Text(OrEmpty(row.redirect))]
    ensures cells[5..] == Extras(row.report, extraCols)
  {
    [Text(row.url), FieldCell(row.path), Text(OrEmpty(row.file)), Text(row.status), Text(OrEmpty(row.redirect))]
      + Extras(row.report, extraCols)
  }

  /** The header row: the default headers, then the extra columns. */
  function Headers(defaultHeaders: seq<string>, extraCols: seq<string>): seq<Cell> {
    seq(|defaultHeaders| + |extraCols|, i requires 0 <= i < |defaultHeaders| + |extraCols| =>
      Text(if i < |defaultHeaders| then defaultHeaders[i] else extraCols[i - |defaultHeaders|]))
  }

  /** Column letter as written: the character with code `65 + n - 1`, so
      column 27 gets '[' rather than "AA". The code is returned as a number
      (for n = 0 it is '@'). */
  function ColumnCodeAsWritten(n: nat): (code: int)
    ensures 1 <= n <= 26 <==> 'A' as int <= code <= 'Z' as int
  {
    65 + n - 1
  }

  /** Column 27 is past 'Z' as written. */
  lemma AsWrittenPastZ()
    ensures ColumnCodeAsWritten(27) == '[' as int
    ensures ColumnCodeAsWritten(27) > 'Z' as int
  {
  }

  /** The evidently intended Excel column name: bijective base 26
      ("A".."Z", "AA", ...). */
  function ColumnName(n: nat): (name: string)
    requires n >= 1
    ensures |name| >= 1
    ensures forall i :: 0 <= i < |name| ==> 'A' <= name[i] <= 'Z'
    decreases n
  {
    var d := (n - 1) % 26;
    var letter := (65 + d) as char;
    if n <= 26 then [letter] else ColumnName((n - 1) / 26) + [letter]
  }

  /** Reading a column name back to its number. */
  function ColumnNumber(name: string): int
  {
    if name == [] then 0 else ColumnNumber(name[..|name| - 1]) * 26 + (name[|name| - 1] as int - 64)
  }

  /** The corrected name reads back to its column, and agrees with the
      source's letter up to 26 columns. */
  lemma {:induction false} ColumnNameRoundTrip(n: nat)
    requires n >= 1
    ensures ColumnNumber(ColumnName(n)) == n
    ensures n <= 26 ==> ColumnName(n) == [ColumnCodeAsWritten(n) as char]
    decreases n
  {
    var name := ColumnName(n);
    var d := (n - 1) % 26;
    if n <= 26 {
      assert name == [(65 + d) as char];
      assert name[..0] == [];
    } else {
      var q := (n - 1) / 26;
      ColumnNameRoundTrip(q);
      assert name[..|name| - 1] == ColumnName(q);
      assert n == q * 26 + d + 1;
    }
  }

  /** The auto-filter of the sheet: from A1 to the last header column on
      row 1. */
  datatype AutoFilter = AutoFilter(from: string, to: string)

  function HeaderFilter(headerCount: nat): (f: AutoFilter)
    requires headerCount >= 1
    ensures f.from == "A1"
    ensures f.to == ColumnName(headerCount) + "1"
  {
    AutoFilter("A1", ColumnName(headerCount) + "1")
  }

  /** The rows a report adds: the header row, then one row per record in
      order. */
  function SheetRows(status: ReportStatus, defaultHeaders: seq<string>): seq<seq<Cell>> {
    [Headers(defaultHeaders, status.extraCols)]
      + seq(|status.rows|, i requires 0 <= i < |status.rows| => RowCells(status.rows[i], status.extraCols))
  }

  /** A sheet: its auto-filter and its rows. */
  class Worksheet {
    var autoFilter: Option<AutoFilter>
    var rows: seq<seq<Cell>>

    constructor ()
      ensures autoFilter == None && rows == []
    {
      autoFilter := None;
      rows := [];
    }
  }

  /** `writeReportWorksheet`: set the auto-filter over the header row and
      add the header row and one row per status record (after the rows a
      reopened sheet already has). */
  method WriteReportWorksheet(ws: Worksheet, status: ReportStatus, defaultHeaders: seq<string>)
    requires |defaultHeaders| + |status.extraCols| >= 1
    modifies ws
    ensures ws.autoFilter == Some(HeaderFilter(|defaultHeaders| + |status.extraCols|))
    ensures ws.rows == old(ws.rows) + SheetRows(status, defaultHeaders)
  {
    var headers := Headers(defaultHeaders, status.extraCols);
    var added: seq<seq<Cell>> := [];
    for i := 0 to |status.rows|
      invariant |added| == i
      invariant forall j :: 0 <= j < i ==> added[j] == RowCells(status.rows[j], status.extraCols)
      invariant ws.rows == old(ws.rows)
    {
      var row := status.rows[i];
      var extra := BuildExtras(row.report, status.extraCols);
      var cells := [Text(row.url), FieldCell(row.path), Text(OrEmpty(row.file)), Text(row.status), Text(OrEmpty(row.redirect))] + extra;
      added := added + [cells];
    }
    assert [headers] + added == SheetRows(status, defaultHeaders);
    ws.autoFilter := Some(HeaderFilter(|headers|));
    ws.rows := ws.rows + ([headers] + added);
  }

  /** One header row plus one row per record; the header row is the default
      headers then the extra columns; row `i + 1` is record `i`. */
  lemma SheetRowsShape(status: ReportStatus, defaultHeaders: seq<string>)
    ensures var rows := SheetRows(status, defaultHeaders);
      && |rows| == 1 + |status.rows|
      && |rows[0]| == |defaultHeaders| + |status.extraCols|
      && (forall i :: 0 <= i < |defaultHeaders| ==> rows[0][i] == Text(defaultHeaders[i]))
      && (forall i :: 0 <= i < |status.extraCols| ==> rows[0][|defaultHeaders| + i] == Text(status.extraCols[i]))
      && (forall i :: 0 <= i < |status.rows| ==> rows[i + 1] == RowCells(status.rows[i], status.extraCols))
      && (forall i :: 0 <= i < |status.rows| ==> rows[i + 1][0] == Text(status.rows[i].url))
  {
  }

  // ---------------------------------------------------------------------
  // whatFileName
  // ---------------------------------------------------------------------

  /** A directory entry that counts as an earlier report of `name`. */
  predicate Clashes(file: string, name: string) {
    EndsWith(file, ".xlsx") && (StartsWith(file, name + ".") || StartsWith(file, name + "-"))
  }

  /** The number of clashing entries of a listing. */
  function ClashCount(ls: seq<string>, name: string): (n: nat)
    ensures n <= |ls|
    ensures n == 0 <==> forall i :: 0 <= i < |ls| ==> !Clashes(ls[i], name)
  {
    if ls == [] then 0
    else ClashCount(ls[..|ls| - 1], name) + (if Clashes(ls[|ls| - 1], name) then 1 else 0)
  }

  /** The report name for `suggestedName`, given the directory listing
      `ls`. */
  function ReportName(ls: seq<string>, suggestedName: string, concatenate: bool): string {
    var count := ClashCount(ls, suggestedName);
    if concatenate || count == 0 then suggestedName
    else suggestedName + "-" + NatToString(count + 1)
  }

  /** `whatFileName`: with `concatenate` the suggested name; otherwise count
      the `.xlsx` files starting with `name.` or `name-` and, when there are
      any, append `-(count + 1)`. The listing `ls` stands for `readdirSync`. */
  method WhatFileName(ls: seq<string>, suggestedName: string, concatenate: bool) returns (name: string)
    ensures name == ReportName(ls, suggestedName, concatenate)
    ensures StartsWith(name, suggestedName)
    ensures concatenate ==> name == suggestedName
    ensures name != suggestedName <==> !concatenate && exists i :: 0 <= i < |ls| && Clashes(ls[i], suggestedName)
  {
    name := suggestedName;
    var count := 0;
    if !concatenate {
      for i := 0 to |ls|
        invariant count == ClashCount(ls[..i], suggestedName)
      {
        assert ls[..i + 1][..i] == ls[..i];
        if EndsWith(ls[i], ".xlsx") && (StartsWith(ls[i], name + ".") || StartsWith(ls[i], name + "-")) {
          count := count + 1;
        }
      }
      assert ls[..|ls|] == ls;
      if count > 0 {
        name := suggestedName + "-" + NatToString(count + 1);
      }
    }
    assert (suggestedName + "-" + NatToString(count + 1))[..|suggestedName|] == suggestedName;
  }

  /** A name extended with a counter is itself the kind of name it counts:
      its `.xlsx` file clashes with the suggested name. */
  lemma CountedNameClashes(ls: seq<string>, suggestedName: string)
    requires ReportName(ls, suggestedName, false) != suggestedName
    ensures Clashes(ReportName(ls, suggestedName, false) + ".xlsx", suggestedName)
  {
    var count := ClashCount(ls, suggestedName);
    var name := suggestedName + "-" + NatToString(count + 1);
    assert (name + ".xlsx")[..|suggestedName + "-"|] == suggestedName + "-";
    assert (name + ".xlsx")[|name + ".xlsx"| - 5..] == ".xlsx";
  }

  /** Counting is not searching: when an earlier numbered report is all
      that is left of a series, the counted name can be a report that already
      exists, and without `concatenate` `buildReport` writes a new workbook
      over it. */
  lemma CountedNameMayExist()
    ensures ReportName(["r.xlsx", "r-3.xlsx"], "r", false) == "r-3"
    ensures ReportName(["r.xlsx", "r-3.xlsx"], "r", false) + ".xlsx" in ["r.xlsx", "r-3.xlsx"]
  {
    var ls := ["r.xlsx", "r-3.xlsx"];
    assert ls[..1] == ["r.xlsx"];
    assert Clashes("r.xlsx", "r") by {
      assert "r.xlsx"[..2] == "r.";
      assert "r.xlsx"[1..] == ".xlsx";
    }
    assert Clashes("r-3.xlsx", "r") by {
      assert "r-3.xlsx"[..2] == "r-";
      assert "r-3.xlsx"[3..] == ".xlsx";
    }
    assert ClashCount(ls, "r") == 2;
    assert NatToString(3) == "3";
    assert "r" + "-" + "3" + ".xlsx" == ls[1];
  }
}
