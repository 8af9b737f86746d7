/** What the reconciliation loop of renderRange (rbuilder.go:155-259)
    guarantees: a blob without headers changes nothing; with the corrected
    layout a block only touches the sheet its header names, splices its
    rows in place of the template row without disturbing the rows around
    it, and moves offset[s] exactly as far as the sheet's row count moves;
    and, as written, two concrete blobs where it does not. */
module ReconcileFacts {
  import opened Outcomes
  import opened GoStrings
  import opened Codec
  import opened Grid
  import opened Reconcile

  // ---------------------------------------------------------------------
  // Blobs without headers

  /** Lines none of which is a "##begin:" header leave the workbook as it
      was, whatever the layout. */
  lemma {:induction false} NoHeaderNoChange(layout: Layout, lines: seq<string>, i: nat, g: seq<Sheet>,
                                             offset: map<int, int>, p: Parsers)
    requires forall j :: i <= j < |lines| ==> !HasPrefix(lines[j], BeginPrefix)
    decreases |lines| - i
    ensures ReconcileFrom(layout, lines, i, g, offset, p) == Ok(g)
  {
    if i < |lines| {
      NoHeaderNoChange(layout, lines, i + 1, g, offset, p);
    }
  }

  // ---------------------------------------------------------------------
  // Filling a block's rows

  /** Writing one line into an existing row r keeps the sheet's length and
      every other row. */
  lemma LineStepRows(layout: Layout, line: string, sheet: Sheet, r: int, p: Parsers, t: Sheet)
    requires 0 <= r < |sheet| && LineStep(layout, line, sheet, r, p) == Ok(t)
    ensures |t| == |sheet|
    ensures forall i :: 0 <= i < |sheet| && i != r ==> t[i] == sheet[i]
  {
    match Assign(layout, line, map[])
    case Err(_) =>
    case Ok(m) =>
      if m != map[] {
        WriteAllCells(sheet, r, m, m.Keys, p);
      }
  }

  /** Filling the existing rows r .. r+n-1 keeps the sheet's length and
      every row outside them. */
  lemma {:induction false} FillRowsOutside(layout: Layout, lines: seq<string>, k: nat, n: nat, sheet: Sheet, r: int,
                                            p: Parsers, t: Sheet)
    requires k + n <= |lines| && 0 <= r && r + n <= |sheet|
    requires Fill(layout, lines, k, n, sheet, r, p) == Ok(t)
    decreases n
    ensures |t| == |sheet|
    ensures forall i :: 0 <= i < |sheet| && !(r <= i < r + n) ==> t[i] == sheet[i]
  {
    if n > 0 {
      assert Fill(layout, lines, k, n, sheet, r, p) == FillTurn(layout, lines, k, n, sheet, r, p);
      match LineStep(layout, lines[k], sheet, r, p)
      case Err(_) =>
      case Ok(next) =>
        LineStepRows(layout, lines[k], sheet, r, p, next);
        FillRowsOutside(layout, lines, k + 1, n - 1, next, r + 1, p, t);
    }
  }

  /** Row `after` is row `before` with the entries of `m` written in: each
      column of `m` holds its text as setValue stores it into the cell that
      was there (a blank one past the row's end), every other cell that
      was there is kept, and the cells added are blank. */
  predicate Filled(after: Row, before: Row, m: map<int, string>, p: Parsers) {
    |after| >= |before| &&
    (forall c :: c in m ==>
      0 <= c < |after| && after[c] == WriteCell(if c < |before| then before[c] else BlankCell, m[c], p)) &&
    (forall j :: 0 <= j < |after| && j !in m ==> after[j] == if j < |before| then before[j] else BlankCell)
  }

  /** Row `after` is row `before` with range line `line` written in. */
  predicate LineFilled(layout: Layout, line: string, after: Row, before: Row, p: Parsers) {
    Assign(layout, line, map[]).Ok? && Filled(after, before, Assign(layout, line, map[]).value, p)
  }

  /** The writes only add blank cells past the end of row r, beyond the
      columns they write. */
  lemma {:induction false} WriteAllBlank(sheet: Sheet, r: nat, m: map<int, string>, keys: set<int>, p: Parsers)
    requires keys <= m.Keys && forall k :: k in keys ==> k >= 0
    requires r < |sheet|
    decreases keys
    ensures var t := WriteAll(sheet, r, m, keys, p);
      |t[r]| >= |sheet[r]| &&
      forall j :: |sheet[r]| <= j < |t[r]| && j !in keys ==> t[r][j] == BlankCell
  {
    if keys != {} {
      var d := Least(keys);
      var w := Written(sheet, r, d, m[d], p);
      WriteAllBlank(w, r, m, keys - {d}, p);
      var t := WriteAll(sheet, r, m, keys, p);
      forall j | |sheet[r]| <= j < |t[r]| && j !in keys
        ensures t[r][j] == BlankCell
      {
        if j < |w[r]| {
          WriteAllKeeps(w, r, m, keys - {d}, j, p);
        }
      }
    }
  }

  /** Writing the entries of `m` into an existing row r fills that row
      with them. */
  lemma WriteAllFills(sheet: Sheet, r: nat, m: map<int, string>, p: Parsers)
    requires r < |sheet| && forall k :: k in m ==> k >= 0
    ensures Filled(WriteAll(sheet, r, m, m.Keys, p)[r], sheet[r], m, p)
  {
    var t := WriteAll(sheet, r, m, m.Keys, p);
    WriteAllCells(sheet, r, m, m.Keys, p);
    WriteAllBlank(sheet, r, m, m.Keys, p);
    forall j | 0 <= j < |sheet[r]| && j !in m
      ensures t[r][j] == sheet[r][j]
    {
      WriteAllKeeps(sheet, r, m, m.Keys, j, p);
    }
  }

  /** Writing one line into an existing row r fills that row with the
      line's entries. */
  lemma LineStepFills(layout: Layout, line: string, sheet: Sheet, r: int, p: Parsers, t: Sheet)
    requires 0 <= r < |sheet| && LineStep(layout, line, sheet, r, p) == Ok(t)
    ensures |t| == |sheet| && LineFilled(layout, line, t[r], sheet[r], p)
  {
    match Assign(layout, line, map[])
    case Err(_) =>
    case Ok(m) =>
      if m != map[] {
        WriteAllFills(sheet, r, m, p);
      }
  }

  /** Filling the existing rows r .. r+n-1 writes line k+l into row r+l. */
  lemma {:induction false} FillRows(layout: Layout, lines: seq<string>, k: nat, n: nat, sheet: Sheet, r: int,
                                     p: Parsers, t: Sheet)
    requires k + n <= |lines| && 0 <= r && r + n <= |sheet|
    requires Fill(layout, lines, k, n, sheet, r, p) == Ok(t)
    decreases n
    ensures |t| == |sheet|
    ensures forall i :: r <= i < r + n ==> LineFilled(layout, lines[k + (i - r)], t[i], sheet[i], p)
  {
    if n > 0 {
      assert Fill(layout, lines, k, n, sheet, r, p) == FillTurn(layout, lines, k, n, sheet, r, p);
      match LineStep(layout, lines[k], sheet, r, p)
      case Err(_) =>
      case Ok(next) =>
        LineStepFills(layout, lines[k], sheet, r, p, next);
        LineStepRows(layout, lines[k], sheet, r, p, next);
        FillRows(layout, lines, k + 1, n - 1, next, r + 1, p, t);
        FillRowsOutside(layout, lines, k + 1, n - 1, next, r + 1, p, t);
        forall i | r <= i < r + n
          ensures LineFilled(layout, lines[k + (i - r)], t[i], sheet[i], p)
        {
          if i > r {
            assert k + (i - r) == (k + 1) + (i - (r + 1));
          }
        }
    }
  }

  /** Lines without any "<<" assign nothing: the rows stay as they were. */
  lemma {:induction false} FillWithoutAssignments(layout: Layout, lines: seq<string>, k: nat, n: nat, sheet: Sheet,
                                                   r: int, p: Parsers)
    requires k + n <= |lines| && forall j :: k <= j < k + n ==> !Contains(lines[j], "<<")
    decreases n
    ensures Fill(layout, lines, k, n, sheet, r, p) == Ok(sheet)
  {
    if n > 0 {
      assert Fill(layout, lines, k, n, sheet, r, p) == FillTurn(layout, lines, k, n, sheet, r, p);
      assert LineStep(layout, lines[k], sheet, r, p) == Ok(sheet);
      FillWithoutAssignments(layout, lines, k + 1, n - 1, sheet, r + 1, p);
    }
  }

  // ---------------------------------------------------------------------
  // One block with the corrected layout

  /** A block of cnt > 0 lines whose rows are spliced in and filled at the
      same row `at` (as the corrected layout does): the other sheets stay
      as they were, sheet s grows by cnt-1 rows, the rows above `at` stay
      and the rows below it move down by cnt-1, and offset[s] grows by
      cnt-1 as well. */
  lemma ExpansionShifts(layout: Layout, lines: seq<string>, first: nat, cnt: nat, g: seq<Sheet>, s: int, at: int,
                        offset: map<int, int>, p: Parsers, g': seq<Sheet>, o': map<int, int>)
    requires first + cnt <= |lines| && cnt > 0
    requires Expansion(layout, lines, first, cnt, g, s, at, at, offset, p) == Ok((g', o'))
    ensures 0 <= s < |g| && 0 <= at < |g[s]| && |g'| == |g|
    ensures forall t :: 0 <= t < |g| && t != s ==> g'[t] == g[t]
    ensures |g'[s]| == |g[s]| + cnt - 1
    ensures forall i :: 0 <= i < at ==> g'[s][i] == g[s][i]
    ensures forall i :: at < i < |g[s]| ==> g'[s][i + cnt - 1] == g[s][i]
    ensures o' == offset[s := Off(offset, s) + cnt - 1]
  {
    var g1 := if cnt - 1 > 0 then g[s := Inserted(g[s], at, cnt - 1, g[s][at])] else g;
    var filled := Fill(layout, lines, first, cnt, g1[s], at, p).value;
    FillRowsOutside(layout, lines, first, cnt, g1[s], at, p, filled);
  }

  /** What the spliced rows hold with the corrected layout: row at+l of
      sheet s is the template row `at` with line first+l of the block
      written in. */
  lemma ExpansionFills(layout: Layout, lines: seq<string>, first: nat, cnt: nat, g: seq<Sheet>, s: int, at: int,
                       offset: map<int, int>, p: Parsers, g': seq<Sheet>, o': map<int, int>)
    requires first + cnt <= |lines| && cnt > 0
    requires Expansion(layout, lines, first, cnt, g, s, at, at, offset, p) == Ok((g', o'))
    ensures 0 <= s < |g| && 0 <= at < |g[s]| && |g'| == |g| && |g'[s]| == |g[s]| + cnt - 1
    ensures forall i :: at <= i < at + cnt ==> LineFilled(layout, lines[first + (i - at)], g'[s][i], g[s][at], p)
  {
    var g1 := if cnt - 1 > 0 then g[s := Inserted(g[s], at, cnt - 1, g[s][at])] else g;
    assert forall i :: at <= i < at + cnt ==> g1[s][i] == g[s][at];
    var filled := Fill(layout, lines, first, cnt, g1[s], at, p).value;
    FillRows(layout, lines, first, cnt, g1[s], at, p, filled);
  }

  /** An empty block deleting row `at` of sheet s itself (as the corrected
      layout does): the other sheets stay as they were, sheet s loses that
      row, and offset[s] drops by one. */
  lemma DeletionShifts(g: seq<Sheet>, s: int, at: int, offset: map<int, int>, g': seq<Sheet>, o': map<int, int>)
    requires Deletion(g, s, at, offset, s) == Ok((g', o'))
    ensures 0 <= s < |g| && 0 <= at < |g[s]| && |g'| == |g|
    ensures forall t :: 0 <= t < |g| && t != s ==> g'[t] == g[t]
    ensures g'[s] == Deleted(g[s], at)
    ensures o' == offset[s := Off(offset, s) - 1]
  {
    assert DropRow(g, s, at) == Ok(g[s := Deleted(g[s], at)]);
  }

  /** A block with the corrected layout: only sheet s changes, only
      offset[s] changes, and it changes by exactly as many rows as sheet s
      gained or lost. */
  lemma IntendedBlock(lines: seq<string>, i: nat, g: seq<Sheet>, offset: map<int, int>, p: Parsers,
                      s: int, rangeRow: int, cnt: nat, g': seq<Sheet>, o': map<int, int>)
    requires i + cnt < |lines|
    requires Block(Intended, lines, i, g, offset, p, s, rangeRow, cnt) == Ok((g', o'))
    ensures 0 <= s < |g| && |g'| == |g|
    ensures forall t :: 0 <= t < |g| && t != s ==> g'[t] == g[t]
    ensures forall t :: t != s ==> Off(o', t) == Off(offset, t)
    ensures |g'[s]| - |g[s]| == Off(o', s) - Off(offset, s)
  {
    if cnt == 0 {
      DeletionShifts(g, s, rangeRow, offset, g', o');
    } else {
      ExpansionShifts(Intended, lines, i + 1, cnt, g, s, rangeRow, offset, p, g', o');
    }
  }

  /** One header "##begin:s/r" and its block, with the corrected layout:
      only sheet s changes, only offset[s] changes, and it changes by
      exactly as many rows as sheet s gained or lost. */
  lemma IntendedStep(lines: seq<string>, i: nat, g: seq<Sheet>, offset: map<int, int>, p: Parsers,
                     s: int, r: int, g': seq<Sheet>, o': map<int, int>)
    requires i < |lines| && HasPrefix(lines[i], BeginPrefix) && ParseBegin(lines[i]) == Ok((s, r))
    requires Step(Intended, lines, i, g, offset, p) == Ok((g', o'))
    ensures 0 <= s < |g| && |g'| == |g|
    ensures forall t :: 0 <= t < |g| && t != s ==> g'[t] == g[t]
    ensures forall t :: t != s ==> Off(o', t) == Off(offset, t)
    ensures |g'[s]| - |g[s]| == Off(o', s) - Off(offset, s)
  {
    IntendedBlock(lines, i, g, offset, p, s, r + Off(offset, s), BlockCount(lines, i), g', o');
  }

  // ---------------------------------------------------------------------
  // The whole loop with the corrected layout

  /** Some header at or after line i names sheet t. */
  ghost predicate Named(lines: seq<string>, i: nat, t: int) {
    exists j :: i <= j < |lines| && HasPrefix(lines[j], BeginPrefix) &&
      ParseBegin(lines[j]).Ok? && ParseBegin(lines[j]).value.0 == t
  }

  /** With the corrected layout, a sheet no header names comes out of the
      loop exactly as it went in. */
  lemma {:induction false} UnnamedSheetUnchanged(lines: seq<string>, i: nat, g: seq<Sheet>, offset: map<int, int>,
                                                  p: Parsers, g': seq<Sheet>, t: int)
    requires ReconcileFrom(Intended, lines, i, g, offset, p) == Ok(g')
    requires 0 <= t < |g| && !Named(lines, i, t)
    decreases |lines| - i
    ensures g'[t] == g[t]
  {
    if i < |lines| {
      assert !Named(lines, i + 1, t);
      if !HasPrefix(lines[i], BeginPrefix) {
        UnnamedSheetUnchanged(lines, i + 1, g, offset, p, g', t);
      } else {
        match Step(Intended, lines, i, g, offset, p)
        case Err(_) =>
        case Ok(next) =>
          var h := ParseBegin(lines[i]).value;
          IntendedStep(lines, i, g, offset, p, h.0, h.1, next.0, next.1);
          UnnamedSheetUnchanged(lines, i + 1, next.0, next.1, p, g', t);
      }
    }
  }

  // ---------------------------------------------------------------------
  // The loop as written

  /** A blob of one header naming row 0 of sheet 1 and an empty block. */
  lemma EmptyBlockOnSheetOne(layout: Layout, h: string, r0: Row, r1: Row, p: Parsers)
    requires HasPrefix(h, BeginPrefix) && ParseBegin(h) == Ok((1, 0))
    ensures ReconcileFrom(layout, [h, EndPrefix], 0, [[r0], [r1]], map[], p) ==
      Ok(if layout == AsWritten then [[], [r1]] else [[r0], []])
  {
    var lines := [h, EndPrefix];
    var g := [[r0], [r1]];
    assert HasPrefix(lines[1], EndPrefix) && !HasPrefix(lines[1], BeginPrefix);
    assert BlockCount(lines, 0) == 0;
    var d := DeletionSheet(layout, 1);
    var g' := g[d := Deleted(g[d], 0)];
    assert Step(layout, lines, 0, g, map[], p) == Ok((g', map[1 := -1]));
    assert ReconcileFrom(layout, lines, 1, g', map[1 := -1], p) == Ok(g');
    assert ReconcileFrom(layout, lines, 0, g, map[], p) == ReconcileFrom(layout, lines, 1, g', map[1 := -1], p);
    assert g' == if layout == AsWritten then [[], [r1]] else [[r0], []];
  }

  /** An empty block whose header names sheet 1: as written, delRow takes
      the row out of sheet 0, which no header names, and leaves the
      template row of sheet 1 in place; corrected, the template row of
      sheet 1 goes. */
  lemma EmptyBlockDeletesFromSheetZero(r0: Row, r1: Row, p: Parsers)
    ensures var lines := [BeginLine(1, 0), EndPrefix];
      ReconcileFrom(AsWritten, lines, 0, [[r0], [r1]], map[], p) == Ok([[], [r1]]) &&
      ReconcileFrom(Intended, lines, 0, [[r0], [r1]], map[], p) == Ok([[r0], []])
  {
    BeginRoundTrip(1, 0);
    EmptyBlockOnSheetOne(AsWritten, BeginLine(1, 0), r0, r1, p);
    EmptyBlockOnSheetOne(Intended, BeginLine(1, 0), r0, r1, p);
  }

  /** The first of two blocks on sheet 0 of two rows: two lines for row 0,
      so one copy of row 0 goes in and offset[0] becomes 1. */
  lemma FirstOfTwoBlocks(layout: Layout, h1: string, h2: string, r0: Row, r1: Row, p: Parsers)
    requires HasPrefix(h1, BeginPrefix) && ParseBegin(h1) == Ok((0, 0))
    ensures var lines := [h1, "", "", EndPrefix, h2, "", EndPrefix];
      ReconcileFrom(layout, lines, 0, [[r0, r1]], map[], p) ==
      ReconcileFrom(layout, lines, 4, [[r0, r0, r1]], map[0 := 1], p)
  {
    var lines := [h1, "", "", EndPrefix, h2, "", EndPrefix];
    var g := [[r0, r1]];
    assert HasPrefix(lines[3], EndPrefix) && !HasPrefix(lines[3], BeginPrefix);
    assert FirstEnd(lines, 1) == 3;
    assert BlockCount(lines, 0) == 2;
    var g1 := [[r0, r0, r1]];
    var o1 := map[0 := 1];
    var ins := Inserted(g[0], 0, 1, g[0][0]);
    assert ins[0] == r0 && ins[1] == r0 && ins[2] == r1;
    assert ins == [r0, r0, r1];
    assert g[0 := ins] == g1;
    FillWithoutAssignments(layout, lines, 1, 2, g1[0], 0, p);
    assert g1[0 := g1[0]] == g1 && map[][0 := Off(map[], 0) + 2 - 1] == o1;
    assert Expansion(layout, lines, 1, 2, g, 0, 0, 0, map[], p) == Ok((g1, o1));
    assert Block(layout, lines, 0, g, map[], p, 0, 0, 2) == Ok((g1, o1));
    assert Step(layout, lines, 0, g, map[], p) == Ok((g1, o1));
    assert ReconcileFrom(layout, lines, 0, g, map[], p) == ReconcileFrom(layout, lines, 1, g1, o1, p);
    assert ReconcileFrom(layout, lines, 1, g1, o1, p) == ReconcileFrom(layout, lines, 2, g1, o1, p);
    assert ReconcileFrom(layout, lines, 2, g1, o1, p) == ReconcileFrom(layout, lines, 3, g1, o1, p);
  }

  /** The second of the two blocks: one line for template row 1, now row
      1 + offset[0] = 2; as written, the splice goes to row 3, past the end
      of the sheet. */
  lemma SecondOfTwoBlocks(layout: Layout, h1: string, h2: string, r0: Row, r1: Row, p: Parsers)
    requires HasPrefix(h2, BeginPrefix) && ParseBegin(h2) == Ok((0, 1))
    ensures ReconcileFrom(layout, [h1, "", "", EndPrefix, h2, "", EndPrefix], 4, [[r0, r0, r1]], map[0 := 1], p) ==
      if layout == AsWritten then Err(Panic) else Ok([[r0, r0, r1]])
  {
    var lines := [h1, "", "", EndPrefix, h2, "", EndPrefix];
    var g1 := [[r0, r0, r1]];
    var o1 := map[0 := 1];
    assert HasPrefix(lines[6], EndPrefix) && !HasPrefix(lines[6], BeginPrefix);
    assert FirstEnd(lines, 5) == 6;
    assert BlockCount(lines, 4) == 1;
    assert Step(layout, lines, 4, g1, o1, p) == Block(layout, lines, 4, g1, o1, p, 0, 2, 1);
    if layout == AsWritten {
      assert Block(layout, lines, 4, g1, o1, p, 0, 2, 1) == Expansion(layout, lines, 5, 1, g1, 0, 2, 3, o1, p);
    } else {
      FillWithoutAssignments(layout, lines, 5, 1, g1[0], 2, p);
      assert g1[0 := g1[0]] == g1 && o1[0 := Off(o1, 0) + 1 - 1] == o1;
      assert Expansion(layout, lines, 5, 1, g1, 0, 2, 2, o1, p) == Ok((g1, o1));
      assert Block(layout, lines, 4, g1, o1, p, 0, 2, 1) == Ok((g1, o1));
      assert ReconcileFrom(layout, lines, 4, g1, o1, p) == ReconcileFrom(layout, lines, 5, g1, o1, p);
      assert ReconcileFrom(layout, lines, 5, g1, o1, p) == ReconcileFrom(layout, lines, 6, g1, o1, p);
      assert ReconcileFrom(layout, lines, 6, g1, o1, p) == Ok(g1);
    }
  }

  /** A second block on a sheet the first block has grown: as written, the
      offset of the sheet is added twice, so the row it splices at lies past
      the end of the sheet and Go panics; corrected, the second block finds
      its template row. */
  lemma SecondBlockOffsetTwice(r0: Row, r1: Row, p: Parsers)
    ensures var lines := [BeginLine(0, 0), "", "", EndPrefix, BeginLine(0, 1), "", EndPrefix];
      ReconcileFrom(AsWritten, lines, 0, [[r0, r1]], map[], p) == Err(Panic) &&
      ReconcileFrom(Intended, lines, 0, [[r0, r1]], map[], p) == Ok([[r0, r0, r1]])
  {
    BeginRoundTrip(0, 0);
    BeginRoundTrip(0, 1);
    var h1, h2 := BeginLine(0, 0), BeginLine(0, 1);
    FirstOfTwoBlocks(AsWritten, h1, h2, r0, r1, p);
    SecondOfTwoBlocks(AsWritten, h1, h2, r0, r1, p);
    FirstOfTwoBlocks(Intended, h1, h2, r0, r1, p);
    SecondOfTwoBlocks(Intended, h1, h2, r0, r1, p);
  }
}
