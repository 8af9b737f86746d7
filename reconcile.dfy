/** The reconciliation loop of renderRange (rbuilder.go:155-259): it reads
    the evaluated range blob line by line and, for every "##begin:s/r"
    header, replaces template row r of sheet s by as many rows as the block
    has lines up to the first "##end", then writes each line's "<<col>>"
    assignments into its row. A per-sheet offset map records how many rows
    earlier blocks added to (or removed from) each sheet. */
module Reconcile {
  import opened Outcomes
  import opened GoStrings
  import opened Codec
  import opened Grid

  // ---------------------------------------------------------------------
  // Writing one range line into its row

  /** Whether the writes of `m` into row r can all reach their cells. */
  predicate Reachable(r: int, m: map<int, string>) {
    r >= 0 && forall k :: k in m ==> k >= 0
  }

  /** A non-empty set has an element. */
  lemma SomeKey(keys: set<int>)
    requires keys != {}
    ensures exists c :: c in keys
  {
    if forall c :: c !in keys {
      assert false;
    }
  }

  /** An element whose removal empties the set is its only element. */
  lemma OnlyKey(keys: set<int>, x: int, rest: set<int>)
    requires x in keys && rest == keys - {x}
    ensures |rest| == 0 ==> forall k :: k in keys ==> k == x
  {
  }

  /** The smallest element of a non-empty set. */
  ghost function Least(keys: set<int>): (c: int)
    requires keys != {}
    decreases keys
    ensures c in keys && forall k :: k in keys ==> c <= k
  {
    SomeKey(keys);
    var x :| x in keys;
    var rest := keys - {x};
    if |rest| == 0 then
      OnlyKey(keys, x, rest);
      x
    else
      var y := Least(rest);
      if x < y then x else y
  }

  /** The sheet after writing m[c] into cell (r, c) for every c of `keys`,
      one column after another in ascending order. Go's range over a map
      takes them in an order of its own; WriteAllFirst shows the order does
      not matter. */
  ghost function WriteAll(sheet: Sheet, r: nat, m: map<int, string>, keys: set<int>, p: Parsers): (t: Sheet)
    requires keys <= m.Keys && forall k :: k in keys ==> k >= 0
    decreases keys
    ensures |t| >= |sheet|
    ensures r < |sheet| ==> |t| == |sheet|
  {
    if keys == {} then sheet
    else
      var c := Least(keys);
      WriteAll(Written(sheet, r, c, m[c], p), r, m, keys - {c}, p)
  }

  /** Two writes to different columns of one row commute. */
  lemma WrittenCommute(sheet: Sheet, r: nat, a: nat, b: nat, x: string, y: string, p: Parsers)
    requires a != b
    ensures Written(Written(sheet, r, a, x, p), r, b, y, p) == Written(Written(sheet, r, b, y, p), r, a, x, p)
  {
    var ab := Written(Written(sheet, r, a, x, p), r, b, y, p);
    var ba := Written(Written(sheet, r, b, y, p), r, a, x, p);
    assert |ab| == |ba|;
    forall i | 0 <= i < |ab|
      ensures ab[i] == ba[i]
    {
      if i == r {
        assert |ab[r]| == |ba[r]|;
        forall j | 0 <= j < |ab[r]|
          ensures ab[r][j] == ba[r][j]
        {
        }
      }
    }
  }

  /** Whichever column of `keys` is written first, the sheet ends the same:
      the result does not depend on Go's map order. */
  lemma {:induction false} WriteAllFirst(sheet: Sheet, r: nat, m: map<int, string>, keys: set<int>, c: int, p: Parsers)
    requires keys <= m.Keys && forall k :: k in keys ==> k >= 0
    requires c in keys
    decreases keys
    ensures WriteAll(sheet, r, m, keys, p) == WriteAll(Written(sheet, r, c, m[c], p), r, m, keys - {c}, p)
  {
    var d := Least(keys);
    if d != c {
      var wd := Written(sheet, r, d, m[d], p);
      var wc := Written(sheet, r, c, m[c], p);
      WriteAllFirst(wd, r, m, keys - {d}, c, p);
      assert keys - {d} - {c} == keys - {c} - {d};
      WrittenCommute(sheet, r, d, c, m[d], m[c], p);
      WriteAllFirst(wc, r, m, keys - {c}, d, p);
    }
  }

  /** A write never changes the cell another column of the row reads. */
  lemma CellAtOtherColumn(sheet: Sheet, r: nat, c: nat, d: nat, str: string, p: Parsers)
    requires c != d
    ensures CellAt(Written(sheet, r, d, str, p), r, c) == CellAt(sheet, r, c)
  {
  }

  /** What the writes do: every column of `keys` holds its text as the cell
      writer stores it into the cell as it was, and no other row changes. */
  lemma {:induction false} WriteAllCells(sheet: Sheet, r: nat, m: map<int, string>, keys: set<int>, p: Parsers)
    requires keys <= m.Keys && forall k :: k in keys ==> k >= 0
    decreases keys
    ensures var t := WriteAll(sheet, r, m, keys, p);
      (forall c :: c in keys ==> |t[r]| > c && t[r][c] == WriteCell(CellAt(sheet, r, c), m[c], p)) &&
      (forall i :: 0 <= i < |sheet| && i != r ==> t[i] == sheet[i])
  {
    if keys != {} {
      var d := Least(keys);
      var w := Written(sheet, r, d, m[d], p);
      WriteAllCells(w, r, m, keys - {d}, p);
      var t := WriteAll(sheet, r, m, keys, p);
      forall c | c in keys
        ensures |t[r]| > c && t[r][c] == WriteCell(CellAt(sheet, r, c), m[c], p)
      {
        if c == d {
          WriteAllKeeps(w, r, m, keys - {d}, c, p);
        } else {
          CellAtOtherColumn(sheet, r, c, d, m[d], p);
        }
      }
    }
  }

  /** Writes to other columns leave column c of row r as it was. */
  lemma {:induction false} WriteAllKeeps(sheet: Sheet, r: nat, m: map<int, string>, keys: set<int>, c: nat, p: Parsers)
    requires keys <= m.Keys && forall k :: k in keys ==> k >= 0
    requires c !in keys && r < |sheet| && c < |sheet[r]|
    decreases keys
    ensures var t := WriteAll(sheet, r, m, keys, p);
      |t[r]| > c && t[r][c] == sheet[r][c]
  {
    if keys != {} {
      var d := Least(keys);
      WriteAllKeeps(Written(sheet, r, d, m[d], p), r, m, keys - {d}, c, p);
    }
  }

  /** setValue for every entry of a parsed range line, into row r of a
      sheet: nothing happens for an empty line; otherwise a negative row or
      column makes Sheet.Cell panic. */
  ghost function WriteRow(sheet: Sheet, r: int, m: map<int, string>, p: Parsers): (res: Result<Sheet>)
    ensures res.Err? <==> m != map[] && !Reachable(r, m)
    ensures res.Err? ==> res.error == Panic
    ensures res.Ok? ==> |res.value| >= |sheet| && (0 <= r < |sheet| ==> |res.value| == |sheet|)
  {
    if m == map[] then Ok(sheet)
    else if !Reachable(r, m) then Err(Panic)
    else Ok(WriteAll(sheet, r, m, m.Keys, p))
  }

  /** The inner loop `for c, str := range cval { setValue(...) }`; the
      columns are taken in an order the caller does not choose. */
  method WriteCells(report: Workbook, s: nat, r: int, m: map<int, string>, p: Parsers) returns (res: Outcome)
    requires s < |report.sheets|
    modifies report
    ensures res.Fail? <==> WriteRow(old(report.sheets)[s], r, m, p).Err?
    ensures res.Fail? ==> res.error == Panic
    ensures res.Pass? ==> report.sheets == old(report.sheets)[s := WriteRow(old(report.sheets)[s], r, m, p).value]
  {
    var keys := m.Keys;
    while keys != {}
      invariant keys <= m.Keys
      invariant |report.sheets| == |old(report.sheets)|
      invariant report.sheets == old(report.sheets)[s := report.sheets[s]]
      invariant r < 0 ==> keys == m.Keys && report.sheets == old(report.sheets)
      invariant Reachable(r, m) ==>
        WriteAll(old(report.sheets)[s], r, m, m.Keys, p) == WriteAll(report.sheets[s], r, m, keys, p)
      invariant !Reachable(r, m) ==> r < 0 || exists k :: k in keys && k < 0
      decreases keys
    {
      SomeKey(keys);
      var c :| c in keys;
      ghost var before := report.sheets[s];
      res := report.SetValue(s, r, c, m[c], p);
      if res.Fail? {
        return;
      }
      if Reachable(r, m) {
        WriteAllFirst(before, r, m, keys, c, p);
      } else {
        ghost var k :| k in keys && k < 0;
        assert k in keys - {c};
      }
      keys := keys - {c};
    }
    res := Pass;
  }

  // ---------------------------------------------------------------------
  // Blocks

  /** The prefix that closes a block: the evaluated "{{end}}##end" line. */
  const EndPrefix: string := "##end"

  /** The first line at or after j that starts with "##end", or -1. */
  function FirstEnd(lines: seq<string>, j: nat): (e: int)
    decreases |lines| - j
    ensures e == -1 || (j <= e < |lines| && HasPrefix(lines[e], EndPrefix))
    ensures e == -1 ==> forall k :: j <= k < |lines| ==> !HasPrefix(lines[k], EndPrefix)
    ensures e >= 0 ==> forall k :: j <= k < e ==> !HasPrefix(lines[k], EndPrefix)
  {
    if j >= |lines| then -1
    else if HasPrefix(lines[j], EndPrefix) then j
    else FirstEnd(lines, j + 1)
  }

  /** `cnt` for the header at line i: the number of lines strictly between
      it and the first following "##end" line, or 0 when there is none. */
  function BlockCount(lines: seq<string>, i: nat): (cnt: nat)
    ensures cnt > 0 ==> i + cnt + 1 < |lines|
  {
    var e := FirstEnd(lines, i + 1);
    if e < 0 then 0 else e - i - 1
  }

  /** The count is the number of lines before the first "##end" after the
      header; it is 0 both for an empty block and for a header no "##end"
      follows. */
  lemma BlockCountEnds(lines: seq<string>, i: nat)
    ensures var cnt := BlockCount(lines, i);
      cnt > 0 ==> (HasPrefix(lines[i + cnt + 1], EndPrefix) &&
        forall k :: i < k <= i + cnt ==> !HasPrefix(lines[k], EndPrefix))
    ensures BlockCount(lines, i) == 0 ==>
      (i + 1 < |lines| && HasPrefix(lines[i + 1], EndPrefix)) ||
      forall k :: i < k < |lines| ==> !HasPrefix(lines[k], EndPrefix)
  {
    var e := FirstEnd(lines, i + 1);
    assert e < 0 || e >= i + 1;
  }

  /** The count loop `for j := i + 1; j < len(lines); j++`. */
  method CountBlock(lines: seq<string>, i: nat) returns (cnt: int)
    ensures cnt == BlockCount(lines, i)
  {
    cnt := 0;
    var j := i + 1;
    while j < |lines|
      invariant i + 1 <= j
      invariant FirstEnd(lines, i + 1) == FirstEnd(lines, j)
      decreases |lines| - j
    {
      if HasPrefix(lines[j], EndPrefix) {
        cnt := j - i - 1;
        break;
      }
      j := j + 1;
    }
  }

  // ---------------------------------------------------------------------
  // One block

  /** offset[s]: a sheet no block has touched has offset 0. */
  function Off(offset: map<int, int>, s: int): int {
    if s in offset then offset[s] else 0
  }

  /** The row the splice works on, `rangeRow` being the template row plus
      offset[s]: as written, offset[s] is added once more. */
  function LiveRow(layout: Layout, rangeRow: int, off: int): int {
    match layout
    case AsWritten => rangeRow + off
    case Intended => rangeRow
  }

  /** The sheet an empty block deletes its row from: as written, sheet 0. */
  function DeletionSheet(layout: Layout, s: int): int {
    match layout
    case AsWritten => 0
    case Intended => s
  }

  /** delRow's outcome on the sheets `g`. */
  function DropRow(g: seq<Sheet>, s: int, r: int): (res: Result<seq<Sheet>>)
    ensures res.Ok? <==> 0 <= s < |g| && 0 <= r < |g[s]|
    ensures res.Ok? ==> (|res.value| == |g| && |res.value[s]| == |g[s]| - 1 &&
      forall t :: 0 <= t < |g| && t != s ==> res.value[t] == g[t])
  {
    if s >= |g| then Err(InvalidSheetNumber)
    else if s < 0 then Err(Panic)
    else if r >= |g[s]| then Err(InvalidRow)
    else if r < 0 then Err(Panic)
    else Ok(g[s := Deleted(g[s], r)])
  }

  /** One line of a block written into row r of a sheet: parseRangeLine,
      then setValue for each of its entries. */
  ghost function LineStep(layout: Layout, line: string, sheet: Sheet, r: int, p: Parsers): (res: Result<Sheet>)
    ensures res.Err? ==> res.error == Panic
  {
    match Assign(layout, line, map[])
    case Err(e) => Err(e)
    case Ok(m) => WriteRow(sheet, r, m, p)
  }

  /** Lines k .. k+n-1 written into rows r .. r+n-1 of one sheet: the
      test of the block loop ... */
  ghost function Fill(layout: Layout, lines: seq<string>, k: nat, n: nat, sheet: Sheet, r: int, p: Parsers): (res: Result<Sheet>)
    requires k + n <= |lines|
    decreases n, 1
    ensures res.Err? ==> res.error == Panic
  {
    if n == 0 then Ok(sheet) else FillTurn(layout, lines, k, n, sheet, r, p)
  }

  /** ... and its body: line k goes into row r, then the rest follows. */
  ghost function FillTurn(layout: Layout, lines: seq<string>, k: nat, n: nat, sheet: Sheet, r: int, p: Parsers): (res: Result<Sheet>)
    requires k + n <= |lines| && n > 0
    decreases n, 0
    ensures res.Err? ==> res.error == Panic
  {
    match LineStep(layout, lines[k], sheet, r, p)
    case Err(e) => Err(e)
    case Ok(next) => Fill(layout, lines, k + 1, n - 1, next, r + 1, p)
  }

  /** An empty block (or one without "##end"): delRow on sheet d at row
      `at`, then offset[s]--. */
  function Deletion(g: seq<Sheet>, d: int, at: int, offset: map<int, int>, s: int):
    (res: Result<(seq<Sheet>, map<int, int>)>)
    ensures res.Ok? <==> 0 <= d < |g| && 0 <= at < |g[d]|
    ensures res.Ok? ==> res.value.1 == offset[s := Off(offset, s) - 1]
    ensures res.Ok? ==> |res.value.0| == |g|
  {
    match DropRow(g, d, at)
    case Err(e) => Err(e)
    case Ok(g') => Ok((g', offset[s := Off(offset, s) - 1]))
  }

  /** A block of cnt > 0 lines: cnt-1 copies of row `at` of sheet s go in
      at `at` (Go indexes the row and the sheet first, which panics when
      either is missing), offset[s] grows by cnt-1, and the block's lines
      are written from row `rangeRow` on. */
  ghost function Expansion(layout: Layout, lines: seq<string>, first: nat, cnt: nat, g: seq<Sheet>, s: int, rangeRow: int, at: int,
                           offset: map<int, int>, p: Parsers): (res: Result<(seq<Sheet>, map<int, int>)>)
    requires first + cnt <= |lines| && cnt > 0
    ensures !(0 <= s < |g| && 0 <= at < |g[s]|) ==> res == Err(Panic)
    ensures res.Ok? ==> res.value.1 == offset[s := Off(offset, s) + cnt - 1]
    ensures res.Ok? ==> |res.value.0| == |g|
  {
    if !(0 <= s < |g| && 0 <= at < |g[s]|) then Err(Panic)
    else
      var g1 := if cnt - 1 > 0 then g[s := Inserted(g[s], at, cnt - 1, g[s][at])] else g;
      match Fill(layout, lines, first, cnt, g1[s], rangeRow, p)
      case Err(e) => Err(e)
      case Ok(filled) => Ok((g1[s := filled], offset[s := Off(offset, s) + cnt - 1]))
  }

  /** The block whose header at line i names sheet s; `rangeRow` is the
      header's row plus offset[s], and cnt the block's count. */
  ghost function Block(layout: Layout, lines: seq<string>, i: nat, g: seq<Sheet>, offset: map<int, int>, p: Parsers,
                       s: int, rangeRow: int, cnt: nat): (res: Result<(seq<Sheet>, map<int, int>)>)
    requires i + cnt < |lines|
  {
    var at := LiveRow(layout, rangeRow, Off(offset, s));
    if cnt == 0 then Deletion(g, DeletionSheet(layout, s), at, offset, s)
    else Expansion(layout, lines, i + 1, cnt, g, s, rangeRow, at, offset, p)
  }

  /** The sheets and the offset map after the block whose header is line i. */
  ghost function Step(layout: Layout, lines: seq<string>, i: nat, g: seq<Sheet>, offset: map<int, int>, p: Parsers):
    (res: Result<(seq<Sheet>, map<int, int>)>)
    requires i < |lines| && HasPrefix(lines[i], BeginPrefix)
    ensures res.Ok? ==> |res.value.0| == |g|
  {
    StepWith(layout, lines, i, g, offset, p, ParseBegin(lines[i]), BlockCount(lines, i))
  }

  /** Step for the parsed header and the count of its block. */
  ghost function StepWith(layout: Layout, lines: seq<string>, i: nat, g: seq<Sheet>, offset: map<int, int>, p: Parsers,
                          header: Result<(int, int)>, cnt: nat): (res: Result<(seq<Sheet>, map<int, int>)>)
    requires i + cnt < |lines|
    ensures res.Ok? ==> |res.value.0| == |g|
  {
    match header
    case Err(e) => Err(e)
    case Ok(h) => Block(layout, lines, i, g, offset, p, h.0, h.1 + Off(offset, h.0), cnt)
  }

  /** The rest of the loop from line i on. */
  ghost function ReconcileFrom(layout: Layout, lines: seq<string>, i: nat, g: seq<Sheet>, offset: map<int, int>, p: Parsers):
    (res: Result<seq<Sheet>>)
    decreases |lines| - i
    ensures res.Ok? ==> |res.value| == |g|
  {
    if i >= |lines| then Ok(g)
    else if !HasPrefix(lines[i], BeginPrefix) then ReconcileFrom(layout, lines, i + 1, g, offset, p)
    else
      match Step(layout, lines, i, g, offset, p)
      case Err(e) => Err(e)
      case Ok(next) => ReconcileFrom(layout, lines, i + 1, next.0, next.1, p)
  }

  /** `whole` is what writing lines k .. k+n-1 from row r on gives. */
  ghost predicate FillsTo(layout: Layout, whole: Result<Sheet>, lines: seq<string>, k: nat, n: nat, sheet: Sheet, r: int, p: Parsers)
    requires k + n <= |lines|
  {
    whole == Fill(layout, lines, k, n, sheet, r, p)
  }

  /** The end of the block loop. */
  lemma FillDone(layout: Layout, lines: seq<string>, k: nat, sheet: Sheet, r: int, p: Parsers, whole: Result<Sheet>)
    requires k <= |lines| && FillsTo(layout, whole, lines, k, 0, sheet, r, p)
    ensures whole == Ok(sheet)
  {
    assert Fill(layout, lines, k, 0, sheet, r, p) == Ok(sheet);
  }

  /** One turn of the block loop: a failed line ends it with that failure. */
  lemma FillFails(layout: Layout, lines: seq<string>, k: nat, n: nat, sheet: Sheet, r: int, p: Parsers, whole: Result<Sheet>)
    requires k + n <= |lines| && n > 0 && LineStep(layout, lines[k], sheet, r, p).Err?
    requires FillsTo(layout, whole, lines, k, n, sheet, r, p)
    ensures whole == Err(Panic)
  {
    assert Fill(layout, lines, k, n, sheet, r, p) == FillTurn(layout, lines, k, n, sheet, r, p);
  }

  /** One turn of the block loop whose line was written into its row. */
  lemma FillNext(layout: Layout, lines: seq<string>, k: nat, n: nat, sheet: Sheet, r: int, p: Parsers, sheet': Sheet, whole: Result<Sheet>)
    requires k + n <= |lines| && n > 0
    requires LineStep(layout, lines[k], sheet, r, p) == Ok(sheet')
    requires FillsTo(layout, whole, lines, k, n, sheet, r, p)
    ensures FillsTo(layout, whole, lines, k + 1, n - 1, sheet', r + 1, p)
  {
    assert Fill(layout, lines, k, n, sheet, r, p) == FillTurn(layout, lines, k, n, sheet, r, p);
  }

  /** The body of the block loop for line k: parseRangeLine, then the
      writes of its entries into row r of sheet s. */
  method FillLine(report: Workbook, layout: Layout, lines: seq<string>, k: nat, n: nat, s: nat, r: int, p: Parsers,
                  ghost whole: Result<Sheet>)
    returns (res: Outcome)
    requires s < |report.sheets| && k + n <= |lines| && n > 0
    requires FillsTo(layout, whole, lines, k, n, report.sheets[s], r, p)
    modifies report
    ensures res.Fail? ==> res.error == Panic && whole == Err(Panic)
    ensures res.Pass? ==> (|report.sheets| == |old(report.sheets)| &&
      report.sheets == old(report.sheets)[s := report.sheets[s]] &&
      FillsTo(layout, whole, lines, k + 1, n - 1, report.sheets[s], r + 1, p))
  {
    ghost var cur := report.sheets[s];
    var cval := ParseRangeLine(lines[k], layout);
    if cval.Err? {
      FillFails(layout, lines, k, n, cur, r, p, whole);
      return Fail(Panic);
    }
    res := WriteCells(report, s, r, cval.value, p);
    if res.Fail? {
      FillFails(layout, lines, k, n, cur, r, p, whole);
    } else {
      FillNext(layout, lines, k, n, cur, r, p, report.sheets[s], whole);
    }
  }

  /** The loop of `for k := i + 1; k < i+1+cnt; k++` over one block;
      `whole` is what the block's lines make of sheet s. */
  method FillBlock(report: Workbook, layout: Layout, lines: seq<string>, first: nat, cnt: nat, s: nat, rangeRow: int, p: Parsers,
                   ghost whole: Result<Sheet>)
    returns (res: Outcome)
    requires s < |report.sheets| && first + cnt <= |lines|
    requires FillsTo(layout, whole, lines, first, cnt, report.sheets[s], rangeRow, p)
    modifies report
    ensures res.Fail? <==> whole.Err?
    ensures res.Fail? ==> res.error == Panic
    ensures res.Pass? ==> report.sheets == old(report.sheets)[s := whole.value]
  {
    var l := 0;
    var k := first;
    while k < first + cnt
      invariant first <= k <= first + cnt && l == k - first
      invariant |report.sheets| == |old(report.sheets)|
      invariant report.sheets == old(report.sheets)[s := report.sheets[s]]
      invariant FillsTo(layout, whole, lines, k, cnt - l, report.sheets[s], rangeRow + l, p)
    {
      res := FillLine(report, layout, lines, k, cnt - l, s, rangeRow + l, p, whole);
      if res.Fail? {
        return;
      }
      l := l + 1;
      k := k + 1;
    }
    FillDone(layout, lines, k, report.sheets[s], rangeRow + l, p, whole);
    res := Pass;
  }

  /** An empty block: delRow, then the offset of sheet s drops by one. */
  method DeleteBlock(report: Workbook, d: int, at: int, offset: map<int, int>, s: int)
    returns (res: Outcome, offset': map<int, int>)
    modifies report
    ensures res.Fail? <==> Deletion(old(report.sheets), d, at, offset, s).Err?
    ensures res.Fail? ==> Deletion(old(report.sheets), d, at, offset, s) == Err(res.error)
    ensures res.Pass? ==> Deletion(old(report.sheets), d, at, offset, s) == Ok((report.sheets, offset'))
  {
    offset' := offset;
    res := report.DelRow(d, at);
    if res.Pass? {
      offset' := offset[s := Off(offset, s) - 1];
    }
  }

  /** A block of cnt > 0 lines: the copies of the template row go in, the
      offset of sheet s grows, and the lines are written into the rows. */
  method ExpandBlock(report: Workbook, layout: Layout, lines: seq<string>, first: nat, cnt: nat, s: int, rangeRow: int, at: int,
                     offset: map<int, int>, p: Parsers)
    returns (res: Outcome, offset': map<int, int>)
    requires first + cnt <= |lines| && cnt > 0
    modifies report
    ensures res.Fail? <==> Expansion(layout, lines, first, cnt, old(report.sheets), s, rangeRow, at, offset, p).Err?
    ensures res.Fail? ==> Expansion(layout, lines, first, cnt, old(report.sheets), s, rangeRow, at, offset, p) == Err(res.error)
    ensures res.Pass? ==>
      Expansion(layout, lines, first, cnt, old(report.sheets), s, rangeRow, at, offset, p) == Ok((report.sheets, offset'))
  {
    offset' := offset;
    if !(0 <= s < |report.sheets| && 0 <= at < |report.sheets[s]|) {
      return Fail(Panic), offset';
    }
    ghost var g0 := report.sheets;
    var _ := report.InsertRows(s, at, cnt - 1, report.sheets[s][at]);
    ghost var g1 := report.sheets;
    assert g1 == if cnt - 1 > 0 then g0[s := Inserted(g0[s], at, cnt - 1, g0[s][at])] else g0;
    offset' := offset[s := Off(offset, s) + cnt - 1];
    res := FillBlock(report, layout, lines, first, cnt, s, rangeRow, p, Fill(layout, lines, first, cnt, report.sheets[s], rangeRow, p));
  }

  /** The block for a parsed header and the count of its lines: delete
      the row or splice in the copies and fill them. */
  method ApplyBlock(report: Workbook, layout: Layout, lines: seq<string>, i: nat, offset: map<int, int>, p: Parsers,
                    header: Result<(int, int)>, cnt: nat)
    returns (res: Outcome, offset': map<int, int>)
    requires i + cnt < |lines|
    modifies report
    ensures res.Fail? <==> StepWith(layout, lines, i, old(report.sheets), offset, p, header, cnt).Err?
    ensures res.Fail? ==> StepWith(layout, lines, i, old(report.sheets), offset, p, header, cnt) == Err(res.error)
    ensures res.Pass? ==> StepWith(layout, lines, i, old(report.sheets), offset, p, header, cnt) == Ok((report.sheets, offset'))
  {
    offset' := offset;
    if header.Err? {
      return Fail(header.error), offset';
    }
    var s := header.value.0;
    var rangeRow := header.value.1 + Off(offset, s);
    var at := LiveRow(layout, rangeRow, Off(offset, s));
    if cnt == 0 {
      res, offset' := DeleteBlock(report, DeletionSheet(layout, s), at, offset, s);
    } else {
      res, offset' := ExpandBlock(report, layout, lines, i + 1, cnt, s, rangeRow, at, offset, p);
    }
  }

  /** The body of the reconciliation loop for a header at line i: parse
      it, count its block, then apply the block. */
  method ProcessBlock(report: Workbook, layout: Layout, lines: seq<string>, i: nat, offset: map<int, int>, p: Parsers)
    returns (res: Outcome, offset': map<int, int>)
    requires i < |lines| && HasPrefix(lines[i], BeginPrefix)
    modifies report
    ensures res.Fail? <==> Step(layout, lines, i, old(report.sheets), offset, p).Err?
    ensures res.Fail? ==> Step(layout, lines, i, old(report.sheets), offset, p) == Err(res.error)
    ensures res.Pass? ==> Step(layout, lines, i, old(report.sheets), offset, p) == Ok((report.sheets, offset'))
  {
    var header := ParseBegin(lines[i]);
    var cnt := CountBlock(lines, i);
    res, offset' := ApplyBlock(report, layout, lines, i, offset, p, header, cnt);
  }

  /** The reconciliation loop of renderRange (rbuilder.go:155-259) over the
      evaluated blob split into `lines`. */
  method Reconcile(report: Workbook, layout: Layout, lines: seq<string>, p: Parsers) returns (res: Outcome)
    modifies report
    ensures res.Fail? <==> ReconcileFrom(layout, lines, 0, old(report.sheets), map[], p).Err?
    ensures res.Fail? ==> ReconcileFrom(layout, lines, 0, old(report.sheets), map[], p) == Err(res.error)
    ensures res.Pass? ==> ReconcileFrom(layout, lines, 0, old(report.sheets), map[], p) == Ok(report.sheets)
  {
    ghost var whole := ReconcileFrom(layout, lines, 0, report.sheets, map[], p);
    var i := 0;
    var offset: map<int, int> := map[];
    while i < |lines|
      invariant 0 <= i <= |lines|
      invariant whole == ReconcileFrom(layout, lines, i, report.sheets, offset, p)
    {
      if HasPrefix(lines[i], BeginPrefix) {
        res, offset := ProcessBlock(report, layout, lines, i, offset, p);
        if res.Fail? {
          return;
        }
      }
      i := i + 1;
    }
    res := Pass;
  }
}
