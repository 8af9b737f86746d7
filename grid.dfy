/** The in-memory workbook the engine edits (the xlsx library's File, Sheet,
    Row and Cell, reduced to what the engine reads and writes), the cell
    writer `setValue`, and the row splices `delRow`, `insertRows`,
    `insertRowsOld`, `appendRows` and the rename pass `ReplaceVariableName`. */
module Grid {
  import opened Outcomes
  import opened GoStrings

  /** xlsx cell types; of these only Date changes the writer's decision. */
  datatype CellType =
    StringType | FormulaType | NumericType | BoolType | InlineType | ErrorType | DateType | GeneralType

  /** A cell: its text, its declared type, its persisted number format, and
      the horizontal and vertical spans that Cell.Merge records. */
  datatype Cell = Cell(value: string, kind: CellType, numFmt: string, hMerge: int, vMerge: int)

  type Row = seq<Cell>
  type Sheet = seq<Row>

  /** The cell the xlsx library creates when Sheet.Cell reaches past a row's end. */
  const BlankCell := Cell("", StringType, "general", 0, 0)

  /** A cell is a placeholder only if its text holds both "{{" and "}}". */
  predicate IsTag(val: string) {
    Contains(val, "{{") && Contains(val, "}}")
  }

  // ---------------------------------------------------------------------
  // Cell writer

  /** strconv.ParseFloat(s, 64) and strconv.ParseInt(s, 10, 64), each seen
      through what the cell stores on success: `Some(t)` when the parse
      succeeds, `t` being the text Cell.SetFloat / Cell.SetInt64 records for
      the parsed number; `None` when the parse fails. */
  datatype Parsers = Parsers(parseFloat: string -> Option<string>, parseInt: string -> Option<string>)

  predicate ParsesFloat(p: Parsers, s: string) { p.parseFloat(s).Some? }
  predicate ParsesInt(p: Parsers, s: string) { p.parseInt(s).Some? }

  /** Go's ParseFloat accepts every base-10 int64 literal ParseInt accepts. */
  ghost predicate FloatCoversInt(p: Parsers) {
    forall s {:trigger p.parseInt(s)} :: ParsesInt(p, s) ==> ParsesFloat(p, s)
  }

  /** setValue's decision list on one cell, `cell` being the cell as read
      before the write. */
  function WriteCell(cell: Cell, str: string, p: Parsers): (r: Cell)
    // the number format read before the write is the one the cell keeps
    ensures r.numFmt == cell.numFmt
    ensures r.hMerge == cell.hMerge && r.vMerge == cell.vMerge
    // a text-formatted cell takes the text verbatim, whatever it holds
    ensures cell.numFmt == "@" ==> r.value == str && r.kind == StringType
    // otherwise a successful parse stores a number
    ensures cell.numFmt != "@" && (ParsesFloat(p, str) || ParsesInt(p, str)) ==>
      r.kind == NumericType &&
      r.value == (if ParsesFloat(p, str) then p.parseFloat(str).value else p.parseInt(str).value)
    // text that is no number leaves a date cell untouched and is stored as a string elsewhere
    ensures cell.numFmt != "@" && !ParsesFloat(p, str) && !ParsesInt(p, str) ==>
      r == (if cell.kind == DateType then cell else cell.(value := str, kind := StringType))
  {
    if cell.numFmt == "@" then cell.(value := str, kind := StringType)
    else if ParsesFloat(p, str) then cell.(value := p.parseFloat(str).value, kind := NumericType)
    else if ParsesInt(p, str) then cell.(value := p.parseInt(str).value, kind := NumericType)
    else if cell.kind == DateType then cell
    else cell.(value := str, kind := StringType)
  }

  /** Since ParseFloat accepts whatever ParseInt accepts, the integer branch
      is dead: the writer behaves the same without the integer parser. */
  lemma IntBranchUnreachable(cell: Cell, str: string, p: Parsers)
    requires FloatCoversInt(p)
    ensures WriteCell(cell, str, p) == WriteCell(cell, str, p.(parseInt := _ => None))
  {
    if ParsesInt(p, str) {
      assert ParsesFloat(p, str);
    }
  }

  function RowAt(sheet: Sheet, r: nat): Row {
    if r < |sheet| then sheet[r] else []
  }

  function Max(a: int, b: int): int { if a < b then b else a }

  /** The sheet after the xlsx library's Sheet.Cell(r, c): blank rows are
      added until row r exists, and blank cells until cell c of row r does. */
  function Reach(sheet: Sheet, r: nat, c: nat): (t: Sheet)
    ensures |t| == Max(|sheet|, r + 1)
    ensures |t[r]| == Max(|RowAt(sheet, r)|, c + 1)
    ensures forall i :: 0 <= i < |sheet| && i != r ==> t[i] == sheet[i]
    ensures forall i :: |sheet| <= i < |t| && i != r ==> t[i] == []
    ensures forall j :: 0 <= j < |RowAt(sheet, r)| ==> t[r][j] == RowAt(sheet, r)[j]
    ensures forall j :: |RowAt(sheet, r)| <= j < |t[r]| ==> t[r][j] == BlankCell
  {
    var rows := if r < |sheet| then sheet else sheet + seq(r + 1 - |sheet|, _ => []);
    var row := RowAt(sheet, r);
    var cells := if c < |row| then row else row + seq(c + 1 - |row|, _ => BlankCell);
    rows[r := cells]
  }

  /** The cell Sheet.Cell(r, c) hands back. */
  function CellAt(sheet: Sheet, r: nat, c: nat): (cell: Cell)
    ensures r < |sheet| && c < |sheet[r]| ==> cell == sheet[r][c]
    ensures !(r < |sheet| && c < |sheet[r]|) ==> cell == BlankCell
  {
    Reach(sheet, r, c)[r][c]
  }

  /** The sheet after setValue(s, r, c, str) on it. */
  function Written(sheet: Sheet, r: nat, c: nat, str: string, p: Parsers): (t: Sheet)
    ensures |t| == Max(|sheet|, r + 1)
    ensures |t[r]| == Max(|RowAt(sheet, r)|, c + 1)
    ensures t[r][c] == WriteCell(CellAt(sheet, r, c), str, p)
    // every other cell that existed is unchanged, every cell added is blank
    ensures forall i :: 0 <= i < |t| && i != r ==> t[i] == RowAt(sheet, i)
    ensures forall j :: 0 <= j < |t[r]| && j != c ==>
      t[r][j] == if j < |RowAt(sheet, r)| then sheet[r][j] else BlankCell
  {
    var t := Reach(sheet, r, c);
    t[r := t[r][c := WriteCell(t[r][c], str, p)]]
  }

  // ---------------------------------------------------------------------
  // Row splices

  /** The rows after removing row r. */
  function Deleted(rows: seq<Row>, r: nat): (t: seq<Row>)
    requires r < |rows|
    ensures |t| == |rows| - 1
    ensures forall i :: 0 <= i < r ==> t[i] == rows[i]
    ensures forall i :: r < i < |rows| ==> t[i - 1] == rows[i]
  {
    rows[..r] + rows[r + 1..]
  }

  function Copies(row: Row, n: nat): (t: seq<Row>)
    ensures |t| == n && forall i :: 0 <= i < n ==> t[i] == row
  {
    seq(n, _ => row)
  }

  /** The rows after putting n copies of `row` at position `at`. */
  function Inserted(rows: seq<Row>, at: nat, n: nat, row: Row): (t: seq<Row>)
    requires at <= |rows|
    ensures |t| == |rows| + n
    ensures forall i :: 0 <= i < at ==> t[i] == rows[i]
    ensures forall i :: at <= i < at + n ==> t[i] == row
    ensures forall i :: at <= i < |rows| ==> t[i + n] == rows[i]
  {
    rows[..at] + Copies(row, n) + rows[at..]
  }

  /** Inserting one more copy at the same position extends the run of copies. */
  lemma InsertedOneMore(rows: seq<Row>, at: nat, n: nat, row: Row)
    requires at <= |rows|
    ensures var t := Inserted(rows, at, n, row);
      t[..at] + [row] + t[at..] == Inserted(rows, at, n + 1, row)
  {
    var t := Inserted(rows, at, n, row);
    var u := t[..at] + [row] + t[at..];
    var v := Inserted(rows, at, n + 1, row);
    assert |u| == |v|;
    forall i | 0 <= i < |u| ensures u[i] == v[i] {
      if i < at {
      } else if i <= at + n {
      } else {
        assert u[i] == t[i - 1];
      }
    }
  }

  /** The cells of a row copied by insertRowsOld: Row.AddCell already appends
      the new cell, and the loop appends the same cell a second time. */
  function DoubledCells(row: Row): (t: Row)
    ensures |t| == 2 * |row|
    ensures forall k :: 0 <= k < |row| ==> t[2 * k] == row[k] && t[2 * k + 1] == row[k]
  {
    if row == [] then [] else DoubledCells(row[..|row| - 1]) + [row[|row| - 1], row[|row| - 1]]
  }

  /** A one-cell template row comes out of insertRowsOld with two cells. */
  lemma OldCopyDuplicatesCells(x: Cell)
    ensures DoubledCells([x]) == [x, x] && |DoubledCells([x])| != |[x]|
  {
    assert [x][..0] == [];
  }

  /** The tail of a row slice after insertRowsOld's appends: `rows` is
      rows[..at] of the sheet and shares the sheet's backing array, so each
      of the first appends writes the new row over the sheet's row at that
      position before the old tail is read back. */
  function Overwritten(tail: seq<Row>, news: seq<Row>): (t: seq<Row>)
    ensures |t| == |tail|
    ensures forall k :: 0 <= k < |tail| ==> t[k] == if k < |news| then news[k] else tail[k]
  {
    seq(|tail|, k requires 0 <= k < |tail| => if k < |news| then news[k] else tail[k])
  }

  /** insertRowsOld's splice as written: the new rows go in at `at`, but the
      rows they were meant to push down are overwritten by them first. */
  function OldSpliced(rows: seq<Row>, at: nat, news: seq<Row>): (t: seq<Row>)
    requires at <= |rows|
    ensures |t| == |rows| + |news|
    ensures t[..at] == rows[..at] && t[at..at + |news|] == news
  {
    rows[..at] + news + Overwritten(rows[at..], news)
  }

  /** As written, inserting n >= 1 copies in front of row `at` loses that
      row: where it should reappear, below the copies, stands a copy. */
  lemma OldSpliceLosesRow(rows: seq<Row>, at: nat, n: nat, row: Row)
    requires at < |rows| && n >= 1
    ensures OldSpliced(rows, at, Copies(row, n))[at + n] == row
    ensures Inserted(rows, at, n, row)[at + n] == rows[at]
    ensures rows[at] != row ==> OldSpliced(rows, at, Copies(row, n)) != Inserted(rows, at, n, row)
  {
    var t := OldSpliced(rows, at, Copies(row, n));
    assert t[at + n] == Overwritten(rows[at..], Copies(row, n))[0];
  }

  /** For three rows and one copy before the middle one: as written the
      result is [a, x, x, c], where [a, x, b, c] is intended. */
  lemma OldSpliceExample(a: Row, b: Row, c: Row, x: Row)
    ensures OldSpliced([a, b, c], 1, Copies(x, 1)) == [a, x, x, c]
    ensures Inserted([a, b, c], 1, 1, x) == [a, x, b, c]
  {
    var t := OldSpliced([a, b, c], 1, Copies(x, 1));
    assert t[2] == Overwritten([b, c], [x])[0];
    assert t[3] == Overwritten([b, c], [x])[1];
    var u := Inserted([a, b, c], 1, 1, x);
    assert u[2] == b && u[3] == c;
  }

  // ---------------------------------------------------------------------
  // ReplaceVariableName

  /** ReplaceVariableName's test: a non-empty placeholder cell holding `from`. */
  predicate Renames(val: string, from: string) {
    val != "" && IsTag(val) && Contains(val, from)
  }

  /** ReplaceVariableName on one cell: a placeholder cell holding `from` gets
      every occurrence replaced by `to` and becomes a string cell; every
      other cell is left as it is. */
  function RenameCell(cell: Cell, from: string, to: string): (r: Cell)
    requires from != []
    ensures !Renames(cell.value, from) ==> r == cell
    ensures Renames(cell.value, from) ==>
      r == cell.(value := ReplaceAll(cell.value, from, to), kind := StringType)
  {
    if Renames(cell.value, from) then cell.(value := ReplaceAll(cell.value, from, to), kind := StringType)
    else cell
  }

  /** The renamed text is the original cut at every `from` and glued with `to`. */
  lemma RenameCellSplitJoin(cell: Cell, from: string, to: string)
    requires from != [] && Renames(cell.value, from)
    ensures RenameCell(cell, from, to).value == Join(Split(cell.value, from), to)
    ensures |Split(cell.value, from)| >= 2
  {
    ReplaceAllIsSplitJoin(cell.value, from, to);
  }

  function RenamedRow(row: Row, from: string, to: string): (t: Row)
    requires from != []
    ensures |t| == |row| && forall j :: 0 <= j < |row| ==> t[j] == RenameCell(row[j], from, to)
  {
    seq(|row|, j requires 0 <= j < |row| => RenameCell(row[j], from, to))
  }

  function RenamedSheet(sheet: Sheet, from: string, to: string): (t: Sheet)
    requires from != []
    ensures |t| == |sheet| && forall i :: 0 <= i < |sheet| ==> t[i] == RenamedRow(sheet[i], from, to)
  {
    seq(|sheet|, i requires 0 <= i < |sheet| => RenamedRow(sheet[i], from, to))
  }

  /** The row with its first c cells renamed: the rename loop's state. */
  function RenamedCellsUpTo(row: Row, c: nat, from: string, to: string): Row
    requires from != [] && c <= |row|
  {
    RenamedRow(row[..c], from, to) + row[c..]
  }

  /** The sheet with its first r rows renamed. */
  function RenamedUpTo(sheet: Sheet, r: nat, from: string, to: string): Sheet
    requires from != [] && r <= |sheet|
  {
    RenamedSheet(sheet[..r], from, to) + sheet[r..]
  }

  lemma RenameNextCell(row: Row, c: nat, from: string, to: string)
    requires from != [] && c < |row|
    ensures RenamedCellsUpTo(row, c, from, to)[c] == row[c]
    ensures RenamedCellsUpTo(row, c, from, to)[c := RenameCell(row[c], from, to)] ==
            RenamedCellsUpTo(row, c + 1, from, to)
  {
    var u := RenamedCellsUpTo(row, c, from, to)[c := RenameCell(row[c], from, to)];
    var v := RenamedCellsUpTo(row, c + 1, from, to);
    assert |u| == |v|;
    forall j | 0 <= j < |u| ensures u[j] == v[j] {
      if j > c {
        assert u[j] == row[j];
      }
    }
  }

  lemma RenameNextRow(sheet: Sheet, r: nat, from: string, to: string)
    requires from != [] && r < |sheet|
    ensures RenamedUpTo(sheet, r, from, to)[r] == sheet[r]
    ensures RenamedUpTo(sheet, r, from, to)[r := RenamedRow(sheet[r], from, to)] ==
            RenamedUpTo(sheet, r + 1, from, to)
  {
    var u := RenamedUpTo(sheet, r, from, to)[r := RenamedRow(sheet[r], from, to)];
    var v := RenamedUpTo(sheet, r + 1, from, to);
    assert |u| == |v|;
    forall i | 0 <= i < |u| ensures u[i] == v[i] {
      if i > r {
        assert u[i] == sheet[i];
      }
    }
  }

  /** The rename loop over a row, from cell c to cell c + 1: the cell is
      renamed when it qualifies, and left as it is otherwise. */
  lemma RenameCellStep(row: Row, c: nat, from: string, to: string)
    requires from != [] && c < |row|
    ensures var cur := RenamedCellsUpTo(row, c, from, to);
      && cur[c] == row[c]
      && (Renames(row[c].value, from) ==> cur[c := RenameCell(row[c], from, to)] == RenamedCellsUpTo(row, c + 1, from, to))
      && (!Renames(row[c].value, from) ==> cur == RenamedCellsUpTo(row, c + 1, from, to))
  {
    RenameNextCell(row, c, from, to);
    if !Renames(row[c].value, from) {
      UpdateSame(RenamedCellsUpTo(row, c, from, to), c, RenameCell(row[c], from, to));
    }
  }

  lemma UpdateSame<T>(s: seq<T>, i: nat, x: T)
    requires i < |s| && s[i] == x
    ensures s[i := x] == s
  {
  }

  lemma UpdateTwice<T>(s: seq<T>, i: nat, x: T, y: T)
    requires i < |s|
    ensures s[i := x][i := y] == s[i := y]
  {
  }

  // ---------------------------------------------------------------------

  /** An xlsx.File: its sheets, each a sequence of rows of cells. */
  class Workbook {
    var sheets: seq<Sheet>

    constructor (sheets: seq<Sheet>)
      ensures this.sheets == sheets
    {
      this.sheets := sheets;
    }

    /** setValue (rbuilder.go:359-390): writes `str` into cell (r, c) of
        sheet s through the decision list of WriteCell. An index the Go code
        cannot reach panics. */
    method SetValue(s: int, r: int, c: int, str: string, p: Parsers) returns (res: Outcome)
      modifies this
      ensures res.Fail? <==> !(0 <= s < |old(sheets)| && r >= 0 && c >= 0)
      ensures res.Fail? ==> res.error == Panic && sheets == old(sheets)
      ensures res.Pass? ==> sheets == old(sheets)[s := Written(old(sheets)[s], r, c, str, p)]
    {
      if !(0 <= s < |sheets| && r >= 0 && c >= 0) {
        return Fail(Panic);
      }
      var sheet := Reach(sheets[s], r, c);
      var cell := sheet[r][c];
      sheet := sheet[r := sheet[r][c := WriteCell(cell, str, p)]];
      sheets := sheets[s := sheet];
      res := Pass;
    }

    /** delRow (rbuilder.go:514-531): removes row r of sheet s. */
    method DelRow(s: int, r: int) returns (res: Outcome)
      modifies this
      ensures s >= |old(sheets)| ==> res == Fail(InvalidSheetNumber)
      ensures s < 0 ==> res == Fail(Panic)
      ensures 0 <= s < |old(sheets)| && r >= |old(sheets)[s]| ==> res == Fail(InvalidRow)
      ensures 0 <= s < |old(sheets)| && r < 0 ==> res == Fail(Panic)
      ensures res.Fail? ==> sheets == old(sheets)
      ensures res.Pass? <==> 0 <= s < |old(sheets)| && 0 <= r < |old(sheets)[s]|
      ensures res.Pass? ==> sheets == old(sheets)[s := Deleted(old(sheets)[s], r)]
    {
      if s >= |sheets| {
        return Fail(InvalidSheetNumber);
      }
      if s < 0 {
        return Fail(Panic);
      }
      if r >= |sheets[s]| {
        return Fail(InvalidRow);
      }
      if r < 0 {
        return Fail(Panic);
      }
      sheets := sheets[s := sheets[s][..r] + sheets[s][r + 1..]];
      res := Pass;
    }

    /** insertRows (rbuilder.go:737-780): puts cnt copies of `row` at
        position startR of sheet s, one at a time at the same position. The
        sheet is the one the caller hands over, so it exists. */
    method InsertRows(s: nat, startR: int, cnt: int, row: Row) returns (res: Outcome)
      requires s < |sheets|
      modifies this
      ensures cnt > 0 && !(0 <= startR <= |old(sheets)[s]|) ==> res == Fail(Panic) && sheets == old(sheets)
      ensures cnt <= 0 ==> res == Pass && sheets == old(sheets)
      ensures cnt > 0 && 0 <= startR <= |old(sheets)[s]| ==>
        res == Pass && sheets == old(sheets)[s := Inserted(old(sheets)[s], startR, cnt, row)]
    {
      var i := 0;
      while i < cnt
        invariant 0 <= i && (cnt > 0 ==> i <= cnt) && (cnt <= 0 ==> i == 0)
        invariant i > 0 ==> 0 <= startR <= |old(sheets)[s]|
        invariant i == 0 ==> sheets == old(sheets)
        invariant i > 0 ==> sheets == old(sheets)[s := Inserted(old(sheets)[s], startR, i, row)]
      {
        if !(0 <= startR <= |sheets[s]|) {
          return Fail(Panic);
        }
        if i == 0 {
          assert Inserted(sheets[s], startR, 0, row) == sheets[s];
        }
        InsertedOneMore(old(sheets)[s], startR, i, row);
        var nrow := row;
        sheets := sheets[s := sheets[s][..startR] + [nrow] + sheets[s][startR..]];
        i := i + 1;
      }
      res := Pass;
    }

    /** insertRowsOld (rbuilder.go:533-616): like insertRows after checking
        the sheet and the start row, but each copy carries every cell twice,
        and the copies overwrite the rows they should push down. */
    method InsertRowsOld(toS: int, startR: int, cnt: int, row: Row) returns (res: Outcome)
      modifies this
      ensures toS >= |old(sheets)| ==> res == Fail(InvalidSheetNumber)
      ensures toS < 0 ==> res == Fail(Panic)
      ensures 0 <= toS < |old(sheets)| && startR >= |old(sheets)[toS]| ==> res == Fail(InvalidStartingRow)
      ensures 0 <= toS < |old(sheets)| && startR < 0 ==> res == Fail(Panic)
      ensures res.Fail? ==> sheets == old(sheets)
      ensures res.Pass? <==> 0 <= toS < |old(sheets)| && 0 <= startR < |old(sheets)[toS]|
      ensures res.Pass? ==>
        sheets == old(sheets)[toS := OldSpliced(old(sheets)[toS], startR, Copies(DoubledCells(row), Max(cnt, 0)))]
    {
      if toS >= |sheets| {
        return Fail(InvalidSheetNumber);
      }
      if toS < 0 {
        return Fail(Panic);
      }
      if startR >= |sheets[toS]| {
        return Fail(InvalidStartingRow);
      }
      var nrows: seq<Row> := [];
      var i := 0;
      while i < cnt
        invariant 0 <= i <= Max(cnt, 0)
        invariant nrows == Copies(DoubledCells(row), i)
        invariant sheets == old(sheets)
      {
        var nrow := CopyRowOld(row);
        nrows := nrows + [nrow];
        i := i + 1;
      }
      if startR < 0 {
        return Fail(Panic);
      }
      // rows := f.Sheets[toS].Rows[0:startR], then one append per new row:
      // while within the sheet's length, each append lands on the sheet's
      // own row at that position
      var live := sheets[toS];
      var rows := live[..startR];
      i := 0;
      while i < |nrows|
        invariant 0 <= i <= |nrows|
        invariant rows == old(sheets)[toS][..startR] + nrows[..i]
        invariant |live| == |old(sheets)[toS]|
        invariant live[..startR] == old(sheets)[toS][..startR]
        invariant forall k :: startR <= k < |live| ==>
          live[k] == if k - startR < i then nrows[k - startR] else old(sheets)[toS][k]
      {
        if startR + i < |live| {
          live := live[startR + i := nrows[i]];
        }
        rows := rows + [nrows[i]];
        i := i + 1;
      }
      assert live[startR..] == Overwritten(old(sheets)[toS][startR..], nrows);
      assert nrows[..i] == nrows;
      sheets := sheets[toS := rows + live[startR..]];
      res := Pass;
    }

    /** The copy of the template row insertRowsOld builds (rbuilder.go:557-572). */
    static method CopyRowOld(row: Row) returns (nrow: Row)
      ensures nrow == DoubledCells(row)
    {
      nrow := [];
      var c := 0;
      while c < |row|
        invariant 0 <= c <= |row|
        invariant nrow == DoubledCells(row[..c])
      {
        var cell := row[c];
        nrow := nrow + [cell];   // Row.AddCell appends the new cell
        nrow := nrow + [cell];   // and the loop appends it once more
        assert row[..c + 1][..c] == row[..c];
        c := c + 1;
      }
      assert row[..|row|] == row;
    }

    /** appendRows (rbuilder.go:456-512): appends rows fromR..toR of sheet
        fromS of `from` to sheet toS of this workbook; `from` may be this
        workbook itself. */
    method AppendRows(from: Workbook, fromS: int, fromR: int, toR: int, toS: int) returns (res: Outcome)
      modifies this
      ensures fromS >= |old(from.sheets)| ==> res == Fail(InvalidSheetFrom)
      ensures fromS < |old(from.sheets)| && toS >= |old(sheets)| ==> res == Fail(InvalidSheetTo)
      ensures fromS < 0 && toS < |old(sheets)| ==> res == Fail(Panic)
      ensures 0 <= fromS < |old(from.sheets)| && toS < |old(sheets)| ==>
        (fromR >= |old(from.sheets)[fromS]| ==> res == Fail(InvalidSourceStart)) &&
        (fromR < |old(from.sheets)[fromS]| <= toR ==> res == Fail(InvalidSourceEnd)) &&
        (fromR < |old(from.sheets)[fromS]| && toR < |old(from.sheets)[fromS]| ==>
          (res == Fail(Panic) <==> toS < 0 || (fromR < 0 && fromR <= toR)))
      ensures res.Fail? ==> sheets == old(sheets)
      ensures res.Pass? ==>
        0 <= fromS < |old(from.sheets)| && 0 <= toS < |old(sheets)| &&
        toR < |old(from.sheets)[fromS]| && (fromR <= toR ==> 0 <= fromR) &&
        sheets == old(sheets)[toS := old(sheets)[toS] +
          (if fromR <= toR then old(from.sheets)[fromS][fromR..toR + 1] else [])]
    {
      if fromS >= |from.sheets| {
        return Fail(InvalidSheetFrom);
      }
      if toS >= |sheets| {
        return Fail(InvalidSheetTo);
      }
      if fromS < 0 {
        return Fail(Panic);
      }
      if fromR >= |from.sheets[fromS]| {
        return Fail(InvalidSourceStart);
      }
      if toR >= |from.sheets[fromS]| {
        return Fail(InvalidSourceEnd);
      }
      if toS < 0 || (fromR < 0 && fromR <= toR) {
        return Fail(Panic);
      }
      ghost var src := from.sheets[fromS];
      var i := fromR;
      if fromR <= toR {
        assert old(sheets)[toS] + src[fromR..i] == old(sheets)[toS];
        UpdateSame(old(sheets), toS, old(sheets)[toS] + src[fromR..i]);
      }
      while i <= toR
        invariant fromR <= i && (fromR <= toR ==> 0 <= fromR && i <= toR + 1)
        invariant fromR > toR ==> i == fromR
        invariant |from.sheets| == |old(from.sheets)|
        invariant forall j :: fromR <= j <= toR ==> j < |from.sheets[fromS]| && from.sheets[fromS][j] == src[j]
        invariant fromR > toR ==> sheets == old(sheets)
        invariant fromR <= toR ==> sheets == old(sheets)[toS := old(sheets)[toS] + src[fromR..i]]
      {
        var row := from.sheets[fromS][i];
        assert row == src[i];
        assert src[fromR..i + 1] == src[fromR..i] + [src[i]];
        assert old(sheets)[toS] + src[fromR..i] + [row] == old(sheets)[toS] + src[fromR..i + 1];
        UpdateTwice(old(sheets), toS, old(sheets)[toS] + src[fromR..i], old(sheets)[toS] + src[fromR..i + 1]);
        sheets := sheets[toS := sheets[toS] + [row]];
        i := i + 1;
      }
      if fromR > toR {
        assert old(sheets)[toS] + [] == old(sheets)[toS];
        UpdateSame(old(sheets), toS, old(sheets)[toS] + []);
      }
      res := Pass;
    }

    /** ReplaceVariableName (rbuilder.go:714-735): in sheet s, every
        placeholder cell holding "." + from gets each occurrence replaced by
        "." + to. The sheet is the one the caller hands over, so it exists. */
    method ReplaceVariableName(s: nat, from: string, to: string)
      requires s < |sheets|
      modifies this
      ensures sheets == old(sheets)[s := RenamedSheet(old(sheets)[s], "." + from, "." + to)]
    {
      var f := "." + from;
      var t := "." + to;
      ghost var sheet0 := sheets[s];
      assert RenamedUpTo(sheet0, 0, f, t) == sheet0 by {
        assert sheet0[..0] == [] && sheet0[0..] == sheet0;
      }
      var r := 0;
      while r < |sheets[s]|
        invariant 0 <= r <= |sheet0|
        invariant sheets == old(sheets)[s := RenamedUpTo(sheet0, r, f, t)]
      {
        RenameNextRow(sheet0, r, f, t);
        ghost var done := RenamedUpTo(sheet0, r, f, t);
        RenameRow(s, r, f, t);
        UpdateTwice(old(sheets), s, done, done[r := RenamedRow(sheet0[r], f, t)]);
        r := r + 1;
      }
      assert RenamedUpTo(sheet0, |sheet0|, f, t) == RenamedSheet(sheet0, f, t);
    }

    /** The inner loop of ReplaceVariableName over the cells of row r. */
    method RenameRow(s: nat, r: nat, f: string, t: string)
      requires f != [] && s < |sheets| && r < |sheets[s]|
      modifies this
      ensures sheets == old(sheets)[s := old(sheets)[s][r := RenamedRow(old(sheets)[s][r], f, t)]]
    {
      ghost var row0 := sheets[s][r];
      assert RenamedCellsUpTo(row0, 0, f, t) == row0 by {
        assert row0[..0] == [] && row0[0..] == row0;
      }
      UpdateSame(old(sheets)[s], r, row0);
      UpdateSame(old(sheets), s, old(sheets)[s]);
      var c := 0;
      while c < |sheets[s][r]|
        invariant 0 <= c <= |row0|
        invariant sheets == old(sheets)[s := old(sheets)[s][r := RenamedCellsUpTo(row0, c, f, t)]]
      {
        var cell := sheets[s][r][c];
        RenameCellStep(row0, c, f, t);
        ghost var cur := RenamedCellsUpTo(row0, c, f, t);
        if cell.value != "" && IsTag(cell.value) && Contains(cell.value, f) {
          cell := cell.(value := ReplaceAll(cell.value, f, t), kind := StringType);
          sheets := sheets[s := sheets[s][r := sheets[s][r][c := cell]]];
          UpdateTwice(old(sheets)[s], r, cur, cur[c := cell]);
          UpdateTwice(old(sheets), s, old(sheets)[s][r := cur], old(sheets)[s][r := cur[c := cell]]);
        }
        c := c + 1;
      }
      assert RenamedCellsUpTo(row0, |row0|, f, t) == RenamedRow(row0, f, t) by {
        assert row0[..|row0|] == row0;
      }
    }
  }
}
