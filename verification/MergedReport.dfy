/**
  buildMergedReportXLSX: one workbook from all daily ones.  A sheet is a map from cells to text;
  a daily report is the rows of each of its sheets, where they can be read.
*/
module MergedReport {
  import opened Common

  datatype Sheet = Activity | Audit | Election

  type Row = seq<string>

  function Header(sh: Sheet): Row {
    match sh
    case Activity =>
      ["Source Date", "Agent ID", "Hostname", "Local IP", "WAN IP", "OS", "Architecture",
       "Binary Version", "Mode", "Transport", "Health", "Latency (ms)", "Bytes/sec", "CPU%", "Mem%",
       "Uptime (s)", "Last update"]
    case Audit =>
      ["Source Date", "Timestamp (ISO)", "Timestamp (Unix)", "Action", "Agent ID", "User", "Detail",
       "Duration (ms)"]
    case Election =>
      ["Source Date", "Timestamp (ISO)", "Action", "Method", "Agent ID", "Hostname", "Leader ID",
       "Leader Age (ms)", "Result", "Error"]
  }

  /** The number of titles. */
  function Width(sh: Sheet): nat {
    match sh
    case Activity => 17
    case Audit => 8
    case Election => 10
  }

  lemma WidthOfHeader(sh: Sheet)
    ensures |Header(sh)| == Width(sh)
  {
  }

  /** The titles writeActivitySheet and writeAuditSheet put into row 1 of the daily report. */
  const DAILY_ACTIVITY: Row :=
    ["Agent ID", "Hostname", "Local IP", "WAN IP", "OS", "Architecture", "Binary Version", "Mode", "Transport",
     "Health", "Latency (ms)", "Bytes/sec", "Frames Received", "Frames/sec", "Uptime", "Start Time", "Boot Time",
     "Wake Up Time", "Total Idle Time", "Report Date", "Report Time"]

  const DAILY_AUDIT: Row := ["Timestamp", "Time (HH:MM:SS)", "Date", "Action", "Agent ID", "User", "Detail"]

  /**
    Over daily column `c` the merged sheet, one column to the right, has the daily title exactly for
    the first twelve columns of the activity sheet.
  */
  lemma ActivityTitlesFitIff(c: nat)
    requires c < 16
    ensures Header(Activity)[0] == "Source Date"
    ensures Header(Activity)[c + 1] == DAILY_ACTIVITY[c] <==> c < 12
  {
  }

  /** In the audit sheet it has it for no column; from "Action" on, the title stands one column to the left of its data. */
  lemma AuditTitlesShifted(c: nat)
    requires c < 7
    ensures Header(Audit)[0] == "Source Date" && Header(Audit)[c + 1] != DAILY_AUDIT[c]
    ensures c >= 3 ==> Header(Audit)[c] == DAILY_AUDIT[c]
  {
  }

  /** A file of the repository: None when it cannot be downloaded or parsed, and so for each sheet. */
  datatype File = File(name: string, report: Option<Sheet -> Option<seq<Row>>>)

  datatype Cell = Cell(sheet: Sheet, row: nat, col: nat)

  predicate HasPrefix(s: string, p: string) { p <= s }

  predicate HasSuffix(s: string, t: string) { |t| <= |s| && s[|s| - |t|..] == t }

  predicate IsReport(name: string) { HasPrefix(name, "report-") && HasSuffix(name, ".xlsx") }

  function DateOf(name: string): string {
    var s := if HasPrefix(name, "report-") then name[7..] else name;
    if HasSuffix(s, ".xlsx") then s[..|s| - 5] else s
  }

  // ---------------------------------------------------------------------------------------------
  // The result as a concatenation
  // ---------------------------------------------------------------------------------------------

  /** Empty cells up to the header's width. */
  function Padded(row: Row, width: nat): (r: Row)
    ensures |r| == if |row| < width then width else |row|
    ensures row <= r
    ensures forall i :: |row| <= i < |r| ==> r[i] == ""
    decreases width - |row|
  {
    if |row| < width then Padded(row + [""], width) else row
  }

  /** A daily row as it appears in the merged report. */
  function Dated(date: string, row: Row, sh: Sheet): Row { Padded([date] + row, Width(sh)) }

  function DatedAll(date: string, rows: seq<Row>, sh: Sheet): seq<Row> {
    if rows == [] then []
    else DatedAll(date, rows[..|rows| - 1], sh) + [Dated(date, rows[|rows| - 1], sh)]
  }

  lemma DatedOneMore(date: string, rows: seq<Row>, sh: Sheet, i: nat)
    requires i < |rows|
    ensures DatedAll(date, rows[..i + 1], sh) == DatedAll(date, rows[..i], sh) + [Dated(date, rows[i], sh)]
  {
    assert rows[..i + 1][..i] == rows[..i];
  }

  /** What one file contributes to a sheet: its rows but the header. */
  function Contribution(f: File, sh: Sheet): seq<Row> {
    if f.report.None? || f.report.value(sh).None? || |f.report.value(sh).value| <= 1 then []
    else DatedAll(DateOf(f.name), f.report.value(sh).value[1..], sh)
  }

  /** The rows of sheet `sh` of the merged report that come from the first `n` files, in order. */
  function Merged(files: seq<File>, sh: Sheet, n: nat): seq<Row>
    requires n <= |files|
  {
    if n == 0 then [] else Merged(files, sh, n - 1) + Contribution(files[n - 1], sh)
  }

  function Reports(files: seq<File>): seq<File> {
    if files == [] then []
    else Reports(files[..|files| - 1]) + if IsReport(files[|files| - 1].name) then [files[|files| - 1]] else []
  }

  ghost predicate SortedByName(files: seq<File>) {
    forall i, j :: 0 <= i < j < |files| ==> !StringLess(files[j].name, files[i].name)
  }

  // ---------------------------------------------------------------------------------------------
  // The result cell by cell
  // ---------------------------------------------------------------------------------------------

  /** The file holds sheet `sh`, and it can be read. */
  predicate Readable(f: File, sh: Sheet) { f.report.Some? && f.report.value(sh).Some? }

  function RowsOf(f: File, sh: Sheet): seq<Row>
    requires Readable(f, sh)
  {
    f.report.value(sh).value
  }

  /** The rows of a sheet that are not its first, which is the header. */
  function DataRows(f: File, sh: Sheet): nat {
    if Readable(f, sh) && RowsOf(f, sh) != [] then |RowsOf(f, sh)| - 1 else 0
  }

  /** The data rows of the first `i` files together. */
  function RowsBefore(files: seq<File>, sh: Sheet, i: nat): nat
    requires i <= |files|
  {
    if i == 0 then 0 else RowsBefore(files, sh, i - 1) + DataRows(files[i - 1], sh)
  }

  ghost predicate CellIs(cells: map<Cell, string>, sh: Sheet, row: nat, col: nat, text: string) {
    Cell(sh, row, col) in cells && cells[Cell(sh, row, col)] == text
  }

  /** Row `target` holds the date in the file's name, the cells of `row`, and nothing up to column `width`. */
  ghost predicate RowStands(cells: map<Cell, string>, sh: Sheet, width: nat, name: string, row: Row, target: nat) {
    && Cell(sh, target, 1) in cells
    && "report-" + cells[Cell(sh, target, 1)] + ".xlsx" == name
    && (forall c :: 0 <= c < |row| ==> CellIs(cells, sh, target, c + 2, row[c]))
    && (forall c :: |row| + 2 <= c <= width ==> CellIs(cells, sh, target, c, ""))
    && (forall k: Cell :: k in cells && k.sheet == sh && k.row == target ==>
          1 <= k.col && (k.col <= |row| + 1 || k.col <= width))
  }

  /** The data rows of the file, from its second row on, stand from row `top` on. */
  ghost predicate FileStands(cells: map<Cell, string>, sh: Sheet, width: nat, f: File, top: nat) {
    forall r :: 1 <= r <= DataRows(f, sh) ==> RowStands(cells, sh, width, f.name, RowsOf(f, sh)[r], top + r - 1)
  }

  /**
    Sheet `sh` holds, below its header, the data rows of all files, one file after the other in
    their order, and nothing else.
  */
  ghost predicate IsMerge(cells: map<Cell, string>, sh: Sheet, width: nat, files: seq<File>) {
    && (forall i :: 0 <= i < |files| ==> FileStands(cells, sh, width, files[i], 2 + RowsBefore(files, sh, i)))
    && (forall k: Cell :: k in cells && k.sheet == sh && k.row != 1 ==>
          2 <= k.row < 2 + RowsBefore(files, sh, |files|))
  }

  lemma {:induction false} DatedAllAt(date: string, rows: seq<Row>, sh: Sheet, r: nat)
    requires r < |rows|
    ensures |DatedAll(date, rows, sh)| == |rows| && DatedAll(date, rows, sh)[r] == Dated(date, rows[r], sh)
  {
    var n := |rows| - 1;
    if r < n {
      DatedAllAt(date, rows[..n], sh, r);
    } else if n > 0 {
      DatedAllAt(date, rows[..n], sh, 0);
    }
  }

  lemma {:induction false} DatedAllLength(date: string, rows: seq<Row>, sh: Sheet)
    ensures |DatedAll(date, rows, sh)| == |rows|
  {
    if rows != [] {
      DatedAllLength(date, rows[..|rows| - 1], sh);
    }
  }

  lemma ContributionLength(f: File, sh: Sheet)
    ensures |Contribution(f, sh)| == DataRows(f, sh)
  {
    if DataRows(f, sh) > 0 {
      DatedAllLength(DateOf(f.name), RowsOf(f, sh)[1..], sh);
    }
  }

  lemma ContributionRow(f: File, sh: Sheet, r: nat)
    requires 1 <= r <= DataRows(f, sh)
    ensures |Contribution(f, sh)| == DataRows(f, sh)
    ensures Contribution(f, sh)[r - 1] == Dated(DateOf(f.name), RowsOf(f, sh)[r], sh)
  {
    ContributionLength(f, sh);
    DatedAllAt(DateOf(f.name), RowsOf(f, sh)[1..], sh, r - 1);
  }

  lemma {:induction false} MergedLength(files: seq<File>, sh: Sheet, n: nat)
    requires n <= |files|
    ensures |Merged(files, sh, n)| == RowsBefore(files, sh, n)
  {
    if n > 0 {
      MergedLength(files, sh, n - 1);
      ContributionLength(files[n - 1], sh);
    }
  }

  lemma {:induction false} MergedGrows(files: seq<File>, sh: Sheet, i: nat, n: nat)
    requires i < n <= |files|
    ensures Merged(files, sh, i) + Contribution(files[i], sh) <= Merged(files, sh, n)
  {
    if i < n - 1 {
      MergedGrows(files, sh, i, n - 1);
    }
  }

  lemma InTheMiddle(above: seq<Row>, own: seq<Row>, all: seq<Row>)
    requires above + own <= all
    ensures |above| + |own| <= |all| && all[|above|..|above| + |own|] == own
  {
  }

  /** What file `i` contributes, among all rows. */
  lemma {:induction false} MergedAt(files: seq<File>, sh: Sheet, n: nat, i: nat)
    requires i < n <= |files|
    ensures var above, own, all := Merged(files, sh, i), Contribution(files[i], sh), Merged(files, sh, n);
            |above| + |own| <= |all| && all[|above|..|above| + |own|] == own
  {
    MergedGrows(files, sh, i, n);
    InTheMiddle(Merged(files, sh, i), Contribution(files[i], sh), Merged(files, sh, n));
  }

  /** The cells of a dated row. */
  lemma {:induction false} DatedCells(date: string, row: Row, sh: Sheet)
    ensures var out := Dated(date, row, sh);
            && |out| == (if |row| + 1 < Width(sh) then Width(sh) else |row| + 1)
            && out[0] == date
            && (forall c :: 0 <= c < |row| ==> out[c + 1] == row[c])
            && (forall c :: |row| < c < |out| ==> out[c] == "")
  {
    var start := [date] + row;
    assert start <= Dated(date, row, sh);
    assert forall c :: 0 <= c < |row| ==> start[c + 1] == row[c];
  }

  /** Column `c` of the `m`-th row laid out. */
  lemma CellLaidOut(cells: map<Cell, string>, sh: Sheet, rows: seq<Row>, m: nat, c: nat)
    requires HoldsRows(cells, sh, rows) && m < |rows| && 1 <= c <= |rows[m]|
    ensures CellIs(cells, sh, m + 2, c, rows[m][c - 1])
  {
    assert InRows(rows, Cell(sh, m + 2, c));
  }

  lemma {:induction false} BlanksLaidOut(
      cells: map<Cell, string>, sh: Sheet, rows: seq<Row>, m: nat, target: nat, from: nat, to: nat)
    requires HoldsRows(cells, sh, rows) && m < |rows| && target == m + 2 && 1 <= from && to <= |rows[m]|
    requires forall c :: from - 1 <= c < to ==> rows[m][c] == ""
    ensures forall c :: from <= c <= to ==> CellIs(cells, sh, target, c, "")
  {
    if from <= to {
      BlanksLaidOut(cells, sh, rows, m, target, from, to - 1);
      CellLaidOut(cells, sh, rows, m, to);
    }
  }

  lemma {:induction false} TextLaidOut(cells: map<Cell, string>, sh: Sheet, rows: seq<Row>, row: Row, m: nat, n: nat)
    requires HoldsRows(cells, sh, rows) && m < |rows| && n <= |row| < |rows[m]|
    requires forall c :: 0 <= c < |row| ==> rows[m][c + 1] == row[c]
    ensures forall c :: 0 <= c < n ==> CellIs(cells, sh, m + 2, c + 2, row[c])
  {
    if n > 0 {
      TextLaidOut(cells, sh, rows, row, m, n - 1);
      CellLaidOut(cells, sh, rows, m, n + 1);
    }
  }

  lemma NothingBeyond(cells: map<Cell, string>, sh: Sheet, rows: seq<Row>, m: nat)
    requires HoldsRows(cells, sh, rows) && m < |rows|
    ensures forall k: Cell :: k in cells && k.sheet == sh && k.row == m + 2 ==> 1 <= k.col <= |rows[m]|
  {
    forall k: Cell | k in cells && k.sheet == sh && k.row == m + 2 ensures 1 <= k.col <= |rows[m]| {
      assert InRows(rows, k);
    }
  }

  /** Where a dated row is laid out, its cells stand as they should. */
  lemma DatedStands(cells: map<Cell, string>, sh: Sheet, rows: seq<Row>, name: string, row: Row, m: nat)
    requires HoldsRows(cells, sh, rows) && m < |rows| && IsReport(name) && rows[m] == Dated(DateOf(name), row, sh)
    ensures RowStands(cells, sh, Width(sh), name, row, m + 2)
  {
    DatedCells(DateOf(name), row, sh);
    NameOfDate(name);
    CellLaidOut(cells, sh, rows, m, 1);
    TextLaidOut(cells, sh, rows, row, m, |row|);
    BlanksLaidOut(cells, sh, rows, m, m + 2, |row| + 2, |rows[m]|);
    NothingBeyond(cells, sh, rows, m);
  }

  /** What a file contributes, laid out below `above` rows, stands as it should. */
  lemma {:induction false} ContributionStands(cells: map<Cell, string>, sh: Sheet, rows: seq<Row>, f: File, above: nat)
    requires HoldsRows(cells, sh, rows) && IsReport(f.name)
    requires above + |Contribution(f, sh)| <= |rows|
    requires rows[above..above + |Contribution(f, sh)|] == Contribution(f, sh)
    ensures FileStands(cells, sh, Width(sh), f, above + 2)
  {
    forall r | 1 <= r <= DataRows(f, sh)
      ensures RowStands(cells, sh, Width(sh), f.name, RowsOf(f, sh)[r], above + 2 + r - 1)
    {
      ContributionRow(f, sh, r);
      assert rows[above + r - 1] == Contribution(f, sh)[r - 1];
      DatedStands(cells, sh, rows, f.name, RowsOf(f, sh)[r], above + r - 1);
    }
  }

  /** A report's name is its date in the middle, and only names of that form are reports. */
  lemma NameOfDate(name: string)
    requires IsReport(name)
    ensures "report-" + DateOf(name) + ".xlsx" == name
  {
    assert name[..7] == "report-" && name == name[..7] + name[7..];
    assert |name| >= 12 by {
      assert name[6] == '-' && name[|name| - 5] == '.' && name[|name| - 4] == 'x' && name[|name| - 3] == 'l'
             && name[|name| - 2] == 's' && name[|name| - 1] == 'x';
      assert name[0] == 'r' && name[1] == 'e' && name[2] == 'p' && name[3] == 'o' && name[4] == 'r' && name[5] == 't';
    }
    var rest := name[7..];
    assert rest[|rest| - 5..] == name[|name| - 5..];
    assert rest == rest[..|rest| - 5] + ".xlsx";
  }

  lemma FileInMerge(cells: map<Cell, string>, sh: Sheet, files: seq<File>, i: nat)
    requires i < |files| && HoldsRows(cells, sh, Merged(files, sh, |files|)) && IsReport(files[i].name)
    ensures FileStands(cells, sh, Width(sh), files[i], 2 + RowsBefore(files, sh, i))
  {
    MergedAt(files, sh, |files|, i);
    MergedLength(files, sh, i);
    ContributionStands(cells, sh, Merged(files, sh, |files|), files[i], |Merged(files, sh, i)|);
  }

  lemma NothingBelow(cells: map<Cell, string>, sh: Sheet, rows: seq<Row>)
    requires HoldsRows(cells, sh, rows)
    ensures forall k: Cell :: k in cells && k.sheet == sh && k.row != 1 ==> 2 <= k.row < 2 + |rows|
  {
    forall k: Cell | k in cells && k.sheet == sh && k.row != 1 ensures 2 <= k.row < 2 + |rows| {
      assert InRows(rows, k);
    }
  }

  /** A sheet that holds the concatenation holds the files cell by cell. */
  lemma {:induction false} MergeStands(cells: map<Cell, string>, sh: Sheet, files: seq<File>)
    requires HoldsRows(cells, sh, Merged(files, sh, |files|)) && forall i :: 0 <= i < |files| ==> IsReport(files[i].name)
    ensures IsMerge(cells, sh, Width(sh), files) && |Merged(files, sh, |files|)| == RowsBefore(files, sh, |files|)
  {
    MergedLength(files, sh, |files|);
    NothingBelow(cells, sh, Merged(files, sh, |files|));
    forall i | 0 <= i < |files| {
      FileInMerge(cells, sh, files, i);
    }
  }

  lemma AddedStands(cells: map<Cell, string>, sh: Sheet, above: seq<Row>, f: File)
    requires HoldsRows(cells, sh, above + Contribution(f, sh)) && IsReport(f.name)
    ensures FileStands(cells, sh, Width(sh), f, |above| + 2)
  {
    var all := above + Contribution(f, sh);
    InTheMiddle(above, Contribution(f, sh), all);
    ContributionStands(cells, sh, all, f, |above|);
  }

  /** The filter keeps each report as often as it is listed, and nothing else. */
  lemma {:induction false} ReportsAre(files: seq<File>, f: File)
    ensures multiset(Reports(files))[f] == if IsReport(f.name) then multiset(files)[f] else 0
  {
    if files != [] {
      var n := |files| - 1;
      ReportsAre(files[..n], f);
      assert files == files[..n] + [files[n]];
    }
  }

  /** Exactly the names report-….xlsx are reports. */
  lemma IsReportIff(name: string)
    ensures IsReport(name) <==> exists date: string :: name == "report-" + date + ".xlsx"
  {
    if IsReport(name) {
      NameOfDate(name);
    }
    if date: string :| name == "report-" + date + ".xlsx" {
      ReportNameParts(date);
    }
  }

  lemma OrderedAreReports(files: seq<File>, ordered: seq<File>)
    requires multiset(ordered) == multiset(Reports(files))
    ensures forall i :: 0 <= i < |ordered| ==> IsReport(ordered[i].name)
  {
    forall i | 0 <= i < |ordered| ensures IsReport(ordered[i].name) {
      assert ordered[i] in multiset(ordered);
      ReportsAre(files, ordered[i]);
    }
  }

  // ---------------------------------------------------------------------------------------------
  // The workbook
  // ---------------------------------------------------------------------------------------------

  /** Cell `k` belongs to `rows`, laid out from row 2 and column 1 on. */
  predicate InRows(rows: seq<Row>, k: Cell) {
    k.row >= 2 && k.row - 2 < |rows| && k.col >= 1 && k.col - 1 < |rows[k.row - 2]|
  }

  /** Below its header, sheet `sh` holds exactly `rows`. */
  ghost predicate HoldsRows(cells: map<Cell, string>, sh: Sheet, rows: seq<Row>) {
    forall k: Cell :: k.sheet == sh && k.row != 1 ==>
      (k in cells <==> InRows(rows, k)) && (k in cells ==> cells[k] == rows[k.row - 2][k.col - 1])
  }

  /** Sheet `sh` holds `rows` and the first `c` cells of the next row `row`. */
  ghost predicate HoldsPart(cells: map<Cell, string>, sh: Sheet, rows: seq<Row>, row: Row, c: nat)
    requires c <= |row|
  {
    HoldsRows(cells, sh, rows + [row[..c]])
  }

  /** Row 1 of sheet `sh` holds the first `c` titles of `header`. */
  ghost predicate HoldsHeader(cells: map<Cell, string>, sh: Sheet, header: Row, c: nat)
    requires c <= |header|
  {
    forall k: Cell :: k.sheet == sh && k.row == 1 ==>
      (k in cells <==> 1 <= k.col <= c) && (k in cells ==> cells[k] == header[k.col - 1])
  }

  class Workbook {
    var cells: map<Cell, string>
    ghost var writes: nat              // calls of SetCellValue

    /** So far no cell was written twice. */
    ghost predicate NoRewrite()
      reads this
    {
      |cells| == writes
    }

    constructor ()
      ensures cells == map[] && NoRewrite()
    {
      cells, writes := map[], 0;
    }

    method SetCellValue(k: Cell, v: string)
      modifies this
      ensures cells == old(cells)[k := v] && writes == old(writes) + 1
      ensures old(NoRewrite()) && k !in old(cells) ==> NoRewrite()
    {
      cells := cells[k := v];
      writes := writes + 1;
    }

    /** Row 1 of an empty sheet. */
    method WriteHeader(sh: Sheet, header: Row)
      requires NoRewrite() && forall k :: k in cells ==> k.sheet != sh
      modifies this
      ensures NoRewrite() && HoldsRows(cells, sh, []) && HoldsHeader(cells, sh, header, |header|)
      ensures OthersKept(old(cells), cells, sh)
    {
      for i := 0 to |header|
        invariant NoRewrite() && OthersKept(old(cells), cells, sh)
        invariant HoldsRows(cells, sh, []) && HoldsHeader(cells, sh, header, i)
      {
        SetCellValue(Cell(sh, 1, i + 1), header[i]);
      }
    }

    /** One row, cell by cell, below `rows`. */
    method WriteRow(sh: Sheet, targetRow: nat, out: Row, ghost rows: seq<Row>)
      requires NoRewrite() && HoldsRows(cells, sh, rows) && targetRow == |rows| + 2
      modifies this
      ensures NoRewrite() && HoldsRows(cells, sh, rows + [out])
      ensures OnlyRowsOf(old(cells), cells, sh)
    {
      EmptyRowAdds(cells, sh, rows, out);
      for ci := 0 to |out|
        invariant NoRewrite() && HoldsPart(cells, sh, rows, out, ci)
        invariant OnlyRowsOf(old(cells), cells, sh)
      {
        ghost var before := cells;
        SetCellValue(Cell(sh, targetRow, ci + 1), out[ci]);
        PartGrows(before, sh, rows, out, ci);
      }
      assert out[..|out|] == out;
    }

    /** The rows of one sheet of one daily report; the counter moves on by as many rows. */
    method CopyRows(sh: Sheet, date: string, rows: seq<Row>, targetRow: nat, ghost above: seq<Row>) returns (next: nat)
      requires NoRewrite() && HoldsRows(cells, sh, above) && targetRow == |above| + 2
      modifies this
      ensures NoRewrite() && HoldsRows(cells, sh, above + DatedAll(date, rows, sh))
      ensures next == |above + DatedAll(date, rows, sh)| + 2
      ensures OnlyRowsOf(old(cells), cells, sh)
    {
      next := targetRow;
      ghost var all := above;
      assert rows[..|rows|] == rows;
      for i := 0 to |rows|
        invariant all == above + DatedAll(date, rows[..i], sh)
        invariant NoRewrite() && HoldsRows(cells, sh, all) && next == |all| + 2
        invariant OnlyRowsOf(old(cells), cells, sh)
      {
        var out := PadRow(date, rows[i], sh);
        WriteRow(sh, next, out, all);
        DatedOneMore(date, rows, sh, i);
        all := all + [out];
        next := next + 1;
      }
    }
  }

  /** The source date is put in front and empty cells behind. */
  method PadRow(date: string, row: Row, sh: Sheet) returns (out: Row)
    ensures out == Dated(date, row, sh)
  {
    out := [date] + row;
    while |out| < Width(sh)
      invariant Padded(out, Width(sh)) == Dated(date, row, sh)
    {
      out := out + [""];
    }
  }

  /** The other sheets are as before. */
  ghost predicate OthersKept(was: map<Cell, string>, cells: map<Cell, string>, sh: Sheet) {
    forall k: Cell :: k.sheet != sh ==> (k in cells <==> k in was) && (k in was ==> cells[k] == was[k])
  }

  /** Everything but the rows of sheet `sh` is as before. */
  ghost predicate OnlyRowsOf(was: map<Cell, string>, cells: map<Cell, string>, sh: Sheet) {
    forall k: Cell :: k.sheet != sh || k.row == 1 ==> (k in cells <==> k in was) && (k in was ==> cells[k] == was[k])
  }

  lemma EmptyRowAdds(cells: map<Cell, string>, sh: Sheet, rows: seq<Row>, row: Row)
    requires HoldsRows(cells, sh, rows)
    ensures HoldsPart(cells, sh, rows, row, 0)
  {
    var part := rows + [row[..0]];
    assert part[|rows|] == [];
    forall k: Cell
      ensures InRows(rows, k) <==> InRows(part, k)
      ensures InRows(rows, k) ==> part[k.row - 2] == rows[k.row - 2]
    {
    }
  }

  lemma PartGrows(cells: map<Cell, string>, sh: Sheet, rows: seq<Row>, row: Row, c: nat)
    requires c < |row| && HoldsPart(cells, sh, rows, row, c)
    ensures Cell(sh, |rows| + 2, c + 1) !in cells
    ensures HoldsPart(cells[Cell(sh, |rows| + 2, c + 1) := row[c]], sh, rows, row, c + 1)
  {
    var part, next := rows + [row[..c]], rows + [row[..c + 1]];
    assert part[|rows|] == row[..c] && next[|rows|] == row[..c + 1];
    forall k: Cell | !(k.row == |rows| + 2 && k.col == c + 1)
      ensures InRows(part, k) <==> InRows(next, k)
      ensures InRows(part, k) ==> part[k.row - 2][k.col - 1] == next[k.row - 2][k.col - 1]
    {
    }
  }

  /** Sheet `sh` is complete: the titles in row 1, and below them `rows` and nothing else. */
  ghost predicate IsSheet(cells: map<Cell, string>, sh: Sheet, header: Row, rows: seq<Row>) {
    HoldsHeader(cells, sh, header, |header|) && HoldsRows(cells, sh, rows)
  }

  lemma SheetKept(was: map<Cell, string>, cells: map<Cell, string>, sh: Sheet, other: Sheet, header: Row, rows: seq<Row>)
    requires OthersKept(was, cells, sh) && other != sh && IsSheet(was, other, header, rows)
    ensures IsSheet(cells, other, header, rows)
  {
  }

  /** The filter on the directory listing. */
  method ReportFiles(files: seq<File>) returns (reports: seq<File>)
    ensures reports == Reports(files)
  {
    reports := [];
    assert files[..|files|] == files;
    for i := 0 to |files|
      invariant reports == Reports(files[..i])
    {
      assert files[..i + 1][..i] == files[..i];
      if IsReport(files[i].name) {
        reports := reports + [files[i]];
      }
    }
  }

  /** Every sheet holds its header and the rows given for it. */
  ghost predicate IsReportOf(cells: map<Cell, string>, activity: seq<Row>, audit: seq<Row>, election: seq<Row>) {
    && IsSheet(cells, Activity, Header(Activity), activity)
    && IsSheet(cells, Audit, Header(Audit), audit)
    && IsSheet(cells, Election, Header(Election), election)
  }

  /** The three sheets with their headers. */
  method NewReport() returns (f: Workbook)
    ensures fresh(f) && f.NoRewrite() && IsReportOf(f.cells, [], [], [])
  {
    f := new Workbook();
    f.WriteHeader(Activity, Header(Activity));
    ghost var c := f.cells;
    f.WriteHeader(Audit, Header(Audit));
    SheetKept(c, f.cells, Audit, Activity, Header(Activity), []);
    c := f.cells;
    f.WriteHeader(Election, Header(Election));
    SheetKept(c, f.cells, Election, Activity, Header(Activity), []);
    SheetKept(c, f.cells, Election, Audit, Header(Audit), []);
  }

  /** The three sheets of one daily report. */
  method CopyFile(f: Workbook, file: File, activityRow: nat, auditRow: nat, electionRow: nat,
      ghost m1: seq<Row>, ghost m2: seq<Row>, ghost m3: seq<Row>)
      returns (activityNext: nat, auditNext: nat, electionNext: nat)
    requires f.NoRewrite() && IsReportOf(f.cells, m1, m2, m3)
    requires activityRow == |m1| + 2 && auditRow == |m2| + 2 && electionRow == |m3| + 2
    modifies f
    ensures f.NoRewrite()
    ensures IsReportOf(f.cells, m1 + Contribution(file, Activity), m2 + Contribution(file, Audit),
                       m3 + Contribution(file, Election))
    ensures activityNext == |m1 + Contribution(file, Activity)| + 2
    ensures auditNext == |m2 + Contribution(file, Audit)| + 2
    ensures electionNext == |m3 + Contribution(file, Election)| + 2
  {
    ghost var n1, n2 := m1 + Contribution(file, Activity), m2 + Contribution(file, Audit);
    ghost var c := f.cells;
    activityNext := CopySheet(f, file, Activity, activityRow, Header(Activity), m1);
    SheetKept(c, f.cells, Activity, Audit, Header(Audit), m2);
    SheetKept(c, f.cells, Activity, Election, Header(Election), m3);
    c := f.cells;
    auditNext := CopySheet(f, file, Audit, auditRow, Header(Audit), m2);
    SheetKept(c, f.cells, Audit, Activity, Header(Activity), n1);
    SheetKept(c, f.cells, Audit, Election, Header(Election), m3);
    c := f.cells;
    electionNext := CopySheet(f, file, Election, electionRow, Header(Election), m3);
    SheetKept(c, f.cells, Election, Activity, Header(Activity), n1);
    SheetKept(c, f.cells, Election, Audit, Header(Audit), n2);
  }

  /**
    The merged report; `ordered` is how sort.Slice leaves the report files of the listing.  Every
    sheet holds its header and, from row 2 on, exactly the concatenation of what the readable
    files contribute, in that order; each row counter ends right below; no cell was written twice.
  */
  method BuildMergedReport(files: seq<File>, ordered: seq<File>)
      returns (f: Workbook, activityRow: nat, auditRow: nat, electionRow: nat)
    requires multiset(ordered) == multiset(Reports(files)) && SortedByName(ordered)
    ensures fresh(f) && f.NoRewrite()
    ensures IsReportOf(f.cells, Merged(ordered, Activity, |ordered|), Merged(ordered, Audit, |ordered|),
                       Merged(ordered, Election, |ordered|))
    ensures activityRow == |Merged(ordered, Activity, |ordered|)| + 2
    ensures auditRow == |Merged(ordered, Audit, |ordered|)| + 2
    ensures electionRow == |Merged(ordered, Election, |ordered|)| + 2
    // Cell by cell.
    ensures IsMerge(f.cells, Activity, 17, ordered) && activityRow == 2 + RowsBefore(ordered, Activity, |ordered|)
    ensures IsMerge(f.cells, Audit, 8, ordered) && auditRow == 2 + RowsBefore(ordered, Audit, |ordered|)
    ensures IsMerge(f.cells, Election, 10, ordered) && electionRow == 2 + RowsBefore(ordered, Election, |ordered|)
  {
    f := NewReport();
    activityRow, auditRow, electionRow := 2, 2, 2;
    ghost var m1, m2, m3 := [], [], [];
    for i := 0 to |ordered|
      invariant fresh(f) && f.NoRewrite() && IsReportOf(f.cells, m1, m2, m3)
      invariant m1 == Merged(ordered, Activity, i) && activityRow == |m1| + 2
      invariant m2 == Merged(ordered, Audit, i) && auditRow == |m2| + 2
      invariant m3 == Merged(ordered, Election, i) && electionRow == |m3| + 2
    {
      activityRow, auditRow, electionRow :=
        CopyFile(f, ordered[i], activityRow, auditRow, electionRow, m1, m2, m3);
      m1 := m1 + Contribution(ordered[i], Activity);
      m2 := m2 + Contribution(ordered[i], Audit);
      m3 := m3 + Contribution(ordered[i], Election);
    }
    OrderedAreReports(files, ordered);
    MergeStands(f.cells, Activity, ordered);
    MergeStands(f.cells, Audit, ordered);
    MergeStands(f.cells, Election, ordered);
  }

  /** One sheet of one file; a file or sheet that cannot be read, or holds no data, is skipped. */
  method CopySheet(f: Workbook, file: File, sh: Sheet, row: nat, ghost header: Row, ghost above: seq<Row>)
      returns (next: nat)
    requires f.NoRewrite() && IsSheet(f.cells, sh, header, above) && row == |above| + 2
    modifies f
    ensures f.NoRewrite() && IsSheet(f.cells, sh, header, above + Contribution(file, sh))
    ensures next == |above + Contribution(file, sh)| + 2
    ensures OthersKept(old(f.cells), f.cells, sh)
    ensures next == row + DataRows(file, sh)
    ensures IsReport(file.name) ==> FileStands(f.cells, sh, Width(sh), file, row)
  {
    assert above + [] == above;
    ContributionLength(file, sh);
    if file.report.None? {
      return row;
    }
    var rows := file.report.value(sh);
    if rows.None? || |rows.value| <= 1 {
      return row;
    }
    next := f.CopyRows(sh, DateOf(file.name), rows.value[1..], row, above);
    if IsReport(file.name) {
      AddedStands(f.cells, sh, above, file);
    }
  }

  /** What a reader finds: cell `c` of the `r`-th merged row stands in row r + 2, column c + 1. */
  lemma CellOfRow(cells: map<Cell, string>, sh: Sheet, header: Row, rows: seq<Row>, r: nat, c: nat)
    requires IsSheet(cells, sh, header, rows) && r < |rows| && c < |rows[r]|
    ensures Cell(sh, r + 2, c + 1) in cells && cells[Cell(sh, r + 2, c + 1)] == rows[r][c]
  {
    assert InRows(rows, Cell(sh, r + 2, c + 1));
  }

  // ---------------------------------------------------------------------------------------------
  // The order of the files
  // ---------------------------------------------------------------------------------------------

  ghost predicate DistinctNames(files: seq<File>) {
    forall i, j :: 0 <= i < j < |files| ==> files[i].name != files[j].name
  }

  lemma TailMultiset(s: seq<File>)
    requires s != []
    ensures multiset(s[1..]) == multiset(s) - multiset{s[0]}
  {
    assert s == [s[0]] + s[1..];
  }

  /** The first file is the one whose name comes before all others. */
  lemma FirstIsLeast(s: seq<File>, t: seq<File>)
    requires s != [] && t != [] && multiset(s) == multiset(t)
    requires DistinctNames(s) && SortedByName(s) && SortedByName(t)
    ensures s[0] == t[0]
  {
    assert s[0] in multiset(t) && t[0] in multiset(s);
    var i :| 0 <= i < |t| && t[i] == s[0];
    var j :| 0 <= j < |s| && s[j] == t[0];
    StringLessTrichotomy(s[0].name, t[0].name);
  }

  /** With distinct names, however the sort works, there is only one way it can leave the files. */
  lemma {:induction false} SortUnique(s: seq<File>, t: seq<File>)
    requires multiset(s) == multiset(t) && DistinctNames(s)
    requires SortedByName(s) && SortedByName(t)
    ensures s == t
  {
    assert |s| == |multiset(s)| == |multiset(t)| == |t|;
    if s != [] {
      FirstIsLeast(s, t);
      TailMultiset(s);
      TailMultiset(t);
      SortUnique(s[1..], t[1..]);
      assert s == [s[0]] + s[1..] && t == [t[0]] + t[1..];
    }
  }

  /** A calendar date with a four-digit year. */
  datatype Date = Date(year: nat, month: nat, day: nat) {
    predicate Valid() { year < 10000 && 1 <= month <= 12 && 1 <= day <= 31 }
  }

  predicate Earlier(a: Date, b: Date) {
    a.year < b.year || (a.year == b.year && (a.month < b.month || (a.month == b.month && a.day < b.day)))
  }

  /** `n` in decimal, with `width` digits. */
  function Decimal(n: nat, width: nat): (s: string)
    ensures |s| == width
  {
    if width == 0 then "" else Decimal(n / 10, width - 1) + ['0' + (n % 10) as char]
  }

  function ReportName(d: Date): string {
    "report-" + Decimal(d.year, 4) + "-" + Decimal(d.month, 2) + "-" + Decimal(d.day, 2) + ".xlsx"
  }

  /** After prefixes of equal length, the first difference decides. */
  lemma {:induction false} LessConcat(a: string, b: string, x: string, y: string)
    requires |a| == |b|
    ensures StringLess(a + x, b + y) <==> StringLess(a, b) || (a == b && StringLess(x, y))
  {
    if a == [] {
      assert a + x == x && b + y == y;
    } else {
      LessConcat(a[1..], b[1..], x, y);
      assert (a + x)[1..] == a[1..] + x && (b + y)[1..] == b[1..] + y;
      assert a == [a[0]] + a[1..] && b == [b[0]] + b[1..];
    }
  }

  function Power10(k: nat): nat { if k == 0 then 1 else 10 * Power10(k - 1) }

  lemma {:induction false} DecimalOrder(m: nat, n: nat, width: nat)
    requires m < Power10(width) && n < Power10(width)
    ensures StringLess(Decimal(m, width), Decimal(n, width)) <==> m < n
    ensures Decimal(m, width) == Decimal(n, width) <==> m == n
  {
    if width > 0 {
      DecimalOrder(m / 10, n / 10, width - 1);
      var a, b := Decimal(m / 10, width - 1), Decimal(n / 10, width - 1);
      var x, y := ['0' + (m % 10) as char], ['0' + (n % 10) as char];
      LessConcat(a, b, x, y);
      assert (a + x)[..width - 1] == a && (b + y)[..width - 1] == b;
      assert (a + x)[width - 1] == x[0] && (b + y)[width - 1] == y[0];
    }
  }

  /** Sorting report names of the form report-YYYY-MM-DD.xlsx sorts the days. */
  lemma NameOrderIsDateOrder(d: Date, e: Date)
    requires d.Valid() && e.Valid()
    ensures StringLess(ReportName(d), ReportName(e)) <==> Earlier(d, e)
    ensures IsReport(ReportName(d))
    ensures DateOf(ReportName(d)) == Decimal(d.year, 4) + "-" + Decimal(d.month, 2) + "-" + Decimal(d.day, 2)
  {
    assert Power10(2) == 100 && Power10(4) == 10 * Power10(3) && Power10(3) == 1000;
    DecimalOrder(d.year, e.year, 4);
    DecimalOrder(d.month, e.month, 2);
    DecimalOrder(d.day, e.day, 2);
    NameSplits(d);
    NameSplits(e);
    var dd, ed := Decimal(d.day, 2), Decimal(e.day, 2);
    var dm, em := Decimal(d.month, 2), Decimal(e.month, 2);
    var dy, ey := Decimal(d.year, 4), Decimal(e.year, 4);
    StringLessTrichotomy("report-", "report-");
    StringLessTrichotomy("-", "-");
    StringLessTrichotomy(".xlsx", ".xlsx");
    LessConcat("report-", "report-", dy + ("-" + (dm + ("-" + (dd + ".xlsx")))), ey + ("-" + (em + ("-" + (ed + ".xlsx")))));
    LessConcat(dy, ey, "-" + (dm + ("-" + (dd + ".xlsx"))), "-" + (em + ("-" + (ed + ".xlsx"))));
    LessConcat("-", "-", dm + ("-" + (dd + ".xlsx")), em + ("-" + (ed + ".xlsx")));
    LessConcat(dm, em, "-" + (dd + ".xlsx"), "-" + (ed + ".xlsx"));
    LessConcat("-", "-", dd + ".xlsx", ed + ".xlsx");
    LessConcat(dd, ed, ".xlsx", ".xlsx");
  }

  lemma ReportNameParts(date: string)
    ensures IsReport("report-" + date + ".xlsx") && DateOf("report-" + date + ".xlsx") == date
  {
    var name := "report-" + date + ".xlsx";
    assert name[7..] == date + ".xlsx";
    assert name[|name| - 5..] == ".xlsx" && (date + ".xlsx")[|date|..] == ".xlsx";
    assert (date + ".xlsx")[..|date|] == date;
    assert name[..7] == "report-";
  }

  lemma NameSplits(d: Date)
    ensures var dy, dm, dd := Decimal(d.year, 4), Decimal(d.month, 2), Decimal(d.day, 2);
            && ReportName(d) == "report-" + (dy + ("-" + (dm + ("-" + (dd + ".xlsx")))))
            && IsReport(ReportName(d))
            && DateOf(ReportName(d)) == dy + "-" + dm + "-" + dd
  {
    var date := Decimal(d.year, 4) + "-" + Decimal(d.month, 2) + "-" + Decimal(d.day, 2);
    assert ReportName(d) == "report-" + date + ".xlsx";
    ReportNameParts(date);
  }
}
