/** The two tag scans: renderRange's walk, which writes a `##begin` header
    and a `text<<col>>` line per range row, and renderStatic's walk, which
    writes one `##s:r:c##text` record per placeholder outside range rows.
    Each walk is a read-only method over the sheets, proved against a
    function that gives the blob from a position on. */
module Scan {
  import opened Outcomes
  import opened GoStrings
  import opened Codec
  import opened Grid

  /** The line renderRange closes a range row with, between separators. */
  const EndLine: string := "{{end}}##end"

  /** A range row's last placeholder: it holds "{{end.}}". */
  predicate IsEndCell(val: string) {
    Contains(val, "{{end.}}")
  }

  /** A placeholder cell that opens a range row: it holds the word "range". */
  predicate IsRangeCell(val: string) {
    Contains(val, "range")
  }

  // ---------------------------------------------------------------------
  // renderRange's scan

  /** What a placeholder cell at (s, r, c) adds to the range blob: the block
      header when it names a range, then its text and column; an end cell
      adds its text without the "{{end.}}" marker (when any is left) and the
      closing line. */
  function RangeCell(val: string, s: nat, r: nat, c: nat): string {
    HeadOf(val, s, r) + (if IsEndCell(val) then EndText(val, c) + Closing else Assignment(val, c))
  }

  /** The block header when the cell names a range, nothing otherwise. */
  function HeadOf(val: string, s: nat, r: nat): string {
    if IsRangeCell(val) then Header(s, r) else ""
  }

  /** An end cell's text without its "{{end.}}" marker, as an assignment
      when any text is left. */
  function EndText(val: string, c: nat): string {
    var rest := ReplaceFirst(val, "{{end.}}", "");
    if |rest| > 0 then Assignment(rest, c) else ""
  }

  /** The block header as the scanner writes it: fmt's "##begin:%d/%d%s". */
  function Header(s: nat, r: nat): string {
    BeginLine(s, r) + TagSeparator
  }

  /** The text that closes a range row's block. */
  const Closing: string := TagSeparator + EndLine + TagSeparator

  /** The range blob of row r of sheet s from cell c on; an end cell ends
      the row's contribution. */
  function RangeCells(row: Row, s: nat, r: nat, c: nat): string
    decreases |row| - c
  {
    if c >= |row| then ""
    else if !IsTag(row[c].value) then RangeCells(row, s, r, c + 1)
    else if IsEndCell(row[c].value) then RangeCell(row[c].value, s, r, c)
    else RangeCell(row[c].value, s, r, c) + RangeCells(row, s, r, c + 1)
  }

  /** No cell of the rows from r on is a placeholder. */
  predicate NoTagsFrom(sheet: Sheet, r: nat) {
    forall i, j :: r <= i < |sheet| && 0 <= j < |sheet[i]| ==> !IsTag(sheet[i][j].value)
  }

  function RangeRows(sheet: Sheet, s: nat, r: nat): string
    decreases |sheet| - r
  {
    if r >= |sheet| then "" else RangeCells(sheet[r], s, r, 0) + RangeRows(sheet, s, r + 1)
  }

  predicate NoTags(g: seq<Sheet>, s: nat) {
    forall i :: s <= i < |g| ==> NoTagsFrom(g[i], 0)
  }

  function RangeSheets(g: seq<Sheet>, s: nat): string
    decreases |g| - s
  {
    if s >= |g| then "" else RangeRows(g[s], s, 0) + RangeSheets(g, s + 1)
  }

  /** One step of the row scan. */
  lemma RangeCellsStep(row: Row, s: nat, r: nat, c: nat)
    ensures c < |row| && !IsTag(row[c].value) ==> RangeCells(row, s, r, c) == RangeCells(row, s, r, c + 1)
    ensures c < |row| && IsTag(row[c].value) && IsEndCell(row[c].value) ==>
      RangeCells(row, s, r, c) == RangeCell(row[c].value, s, r, c)
    ensures c < |row| && IsTag(row[c].value) && !IsEndCell(row[c].value) ==>
      RangeCells(row, s, r, c) == RangeCell(row[c].value, s, r, c) + RangeCells(row, s, r, c + 1)
  {
  }

  /** The blob renderRange hands to the evaluator. */
  function RangeBlob(g: seq<Sheet>): string {
    RangeSheets(g, 0)
  }

  /** The scan of renderRange (rbuilder.go:87-120): every sheet, every row. */
  method ScanRange(g: seq<Sheet>) returns (tags: string)
    ensures tags == RangeBlob(g)
  {
    tags := "";
    var s := 0;
    while s < |g|
      invariant 0 <= s <= |g|
      invariant tags + RangeSheets(g, s) == RangeBlob(g)
    {
      ghost var sheetStart := tags;
      var r := 0;
      while r < |g[s]|
        invariant 0 <= r <= |g[s]|
        invariant tags + RangeRows(g[s], s, r) == sheetStart + RangeRows(g[s], s, 0)
      {
        ghost var rowStart := tags;
        tags := ScanRangeRow(tags, g[s][r], s, r);
        Assoc(rowStart, RangeCells(g[s][r], s, r, 0), RangeRows(g[s], s, r + 1));
        r := r + 1;
      }
      assert tags == sheetStart + RangeRows(g[s], s, 0);
      Assoc(sheetStart, RangeRows(g[s], s, 0), RangeSheets(g, s + 1));
      s := s + 1;
    }
  }

  /** The loop over the cells of row r of sheet s (the loop labelled `rows`
      in rbuilder.go:91-118), appending to the blob built so far; an end
      cell breaks out of the row. */
  method ScanRangeRow(tags0: string, row: Row, s: nat, r: nat) returns (tags: string)
    ensures tags == tags0 + RangeCells(row, s, r, 0)
  {
    tags := tags0;
    var c := 0;
    while c < |row|
      invariant 0 <= c <= |row|
      invariant tags + RangeCells(row, s, r, c) == tags0 + RangeCells(row, s, r, 0)
    {
      var val := row[c].value;
      RangeCellsStep(row, s, r, c);
      if IsTag(val) {
        ghost var before := tags;
        if IsRangeCell(val) {
          tags := tags + Header(s, r);
        }
        assert tags == before + HeadOf(val, s, r);
        if IsEndCell(val) {
          val := ReplaceFirst(val, "{{end.}}", "");
          if |val| > 0 {
            tags := tags + Assignment(val, c);
          }
          assert tags == before + HeadOf(row[c].value, s, r) + EndText(row[c].value, c);
          tags := tags + Closing;
          Assoc(before + HeadOf(row[c].value, s, r), EndText(row[c].value, c), Closing);
          Assoc(before, HeadOf(row[c].value, s, r), EndText(row[c].value, c) + Closing);
          assert tags == before + RangeCells(row, s, r, c);
          break;
        }
        tags := tags + Assignment(val, c);
        Assoc(before, HeadOf(val, s, r), Assignment(val, c));
        Assoc(before, RangeCell(val, s, r, c), RangeCells(row, s, r, c + 1));
      }
      c := c + 1;
    }
    assert tags == tags0 + RangeCells(row, s, r, 0);
  }

  // ---------------------------------------------------------------------
  // renderStatic's scan

  /** The static blob of row r of sheet s from cell c on: a record per
      placeholder, up to the first range cell, which ends the row. */
  function StaticCells(row: Row, s: nat, r: nat, c: nat): string
    decreases |row| - c
  {
    if c >= |row| then ""
    else if !IsTag(row[c].value) then StaticCells(row, s, r, c + 1)
    else if IsRangeCell(row[c].value) then ""
    else StaticEntry(s, r, c, row[c].value) + StaticCells(row, s, r, c + 1)
  }

  /** A static record as the scanner writes it: fmt's "##%d:%d:%d##%s%s". */
  function StaticEntry(s: nat, r: nat, c: nat, val: string): string {
    StaticRecord(s, r, c, val) + TagSeparator
  }

  function StaticRows(sheet: Sheet, s: nat, r: nat): string
    decreases |sheet| - r
  {
    if r >= |sheet| then "" else StaticCells(sheet[r], s, r, 0) + StaticRows(sheet, s, r + 1)
  }

  function StaticSheets(g: seq<Sheet>, s: nat): string
    decreases |g| - s
  {
    if s >= |g| then "" else StaticRows(g[s], s, 0) + StaticSheets(g, s + 1)
  }

  /** The blob renderStatic hands to the evaluator. */
  function StaticBlob(g: seq<Sheet>): string {
    StaticSheets(g, 0)
  }

  /** The scan of renderStatic (rbuilder.go:281-300). */
  method ScanStatic(g: seq<Sheet>) returns (tags: string)
    ensures tags == StaticBlob(g)
  {
    tags := "";
    var s := 0;
    while s < |g|
      invariant 0 <= s <= |g|
      invariant tags + StaticSheets(g, s) == StaticBlob(g)
    {
      ghost var sheetStart := tags;
      var r := 0;
      while r < |g[s]|
        invariant 0 <= r <= |g[s]|
        invariant tags + StaticRows(g[s], s, r) == sheetStart + StaticRows(g[s], s, 0)
      {
        ghost var rowStart := tags;
        tags := ScanStaticRow(tags, g[s][r], s, r);
        Assoc(rowStart, StaticCells(g[s][r], s, r, 0), StaticRows(g[s], s, r + 1));
        r := r + 1;
      }
      assert tags == sheetStart + StaticRows(g[s], s, 0);
      Assoc(sheetStart, StaticRows(g[s], s, 0), StaticSheets(g, s + 1));
      s := s + 1;
    }
  }

  /** renderStatic's loop over the cells of row r of sheet s (the loop
      labelled `rows` in rbuilder.go:284-297), appending to the blob built
      so far; a range cell breaks out of the row. */
  method ScanStaticRow(tags0: string, row: Row, s: nat, r: nat) returns (tags: string)
    ensures tags == tags0 + StaticCells(row, s, r, 0)
  {
    tags := tags0;
    var c := 0;
    while c < |row|
      invariant 0 <= c <= |row|
      invariant tags + StaticCells(row, s, r, c) == tags0 + StaticCells(row, s, r, 0)
    {
      var val := row[c].value;
      if !IsTag(val) {
        c := c + 1;
        continue;
      }
      if IsRangeCell(val) {
        assert StaticCells(row, s, r, c) == "";
        break;
      }
      ghost var before := tags;
      tags := tags + StaticEntry(s, r, c, val);
      Assoc(before, StaticEntry(s, r, c, val), StaticCells(row, s, r, c + 1));
      c := c + 1;
    }
  }

  // ---------------------------------------------------------------------
  // Only placeholder cells matter

  /** The sheets with the text of every cell that is no placeholder erased. */
  function TagsOnly(g: seq<Sheet>): (t: seq<Sheet>)
    ensures |t| == |g|
    ensures forall s :: 0 <= s < |g| ==> (|t[s]| == |g[s]| &&
      forall r :: 0 <= r < |g[s]| ==> (|t[s][r]| == |g[s][r]| &&
        forall c :: 0 <= c < |g[s][r]| ==>
          t[s][r][c].value == (if IsTag(g[s][r][c].value) then g[s][r][c].value else "")))
  {
    seq(|g|, s requires 0 <= s < |g| =>
      seq(|g[s]|, r requires 0 <= r < |g[s]| =>
        seq(|g[s][r]|, c requires 0 <= c < |g[s][r]| =>
          var cell := g[s][r][c];
          if IsTag(cell.value) then cell else cell.(value := ""))))
  }

  /** Two rows whose placeholders sit in the same places with the same texts. */
  predicate SameTags(a: Row, b: Row) {
    |a| == |b| &&
    forall j :: 0 <= j < |a| ==> (IsTag(a[j].value) == IsTag(b[j].value) &&
      (IsTag(a[j].value) ==> a[j].value == b[j].value))
  }

  lemma {:induction false} SameTagsCells(a: Row, b: Row, s: nat, r: nat, c: nat)
    requires SameTags(a, b)
    decreases |a| - c
    ensures RangeCells(a, s, r, c) == RangeCells(b, s, r, c)
    ensures StaticCells(a, s, r, c) == StaticCells(b, s, r, c)
  {
    if c < |a| {
      SameTagsCells(a, b, s, r, c + 1);
    }
  }

  lemma {:induction false} SameTagsRows(a: Sheet, b: Sheet, s: nat, r: nat)
    requires |a| == |b| && forall i :: 0 <= i < |a| ==> SameTags(a[i], b[i])
    decreases |a| - r
    ensures RangeRows(a, s, r) == RangeRows(b, s, r)
    ensures StaticRows(a, s, r) == StaticRows(b, s, r)
  {
    if r < |a| {
      SameTagsCells(a[r], b[r], s, r, 0);
      SameTagsRows(a, b, s, r + 1);
    }
  }

  lemma {:induction false} SameTagsSheets(a: seq<Sheet>, b: seq<Sheet>, s: nat)
    requires |a| == |b|
    requires forall i :: 0 <= i < |a| ==> (|a[i]| == |b[i]| &&
      forall k :: 0 <= k < |a[i]| ==> SameTags(a[i][k], b[i][k]))
    decreases |a| - s
    ensures RangeSheets(a, s) == RangeSheets(b, s)
    ensures StaticSheets(a, s) == StaticSheets(b, s)
  {
    if s < |a| {
      SameTagsRows(a[s], b[s], s, 0);
      SameTagsSheets(a, b, s + 1);
    }
  }

  /** The scans read placeholder cells only: erasing every other cell's text
      leaves both blobs as they were. */
  lemma TagsOnlyBlobs(g: seq<Sheet>)
    ensures RangeBlob(TagsOnly(g)) == RangeBlob(g)
    ensures StaticBlob(TagsOnly(g)) == StaticBlob(g)
  {
    var t := TagsOnly(g);
    assert !IsTag("") by {
      assert !Contains("", "{{");
    }
    SameTagsSheets(t, g, 0);
  }

  /** A sheet range without a single placeholder gives empty blobs. */
  lemma {:induction false} NoTagsCells(row: Row, s: nat, r: nat, c: nat)
    requires forall j :: c <= j < |row| ==> !IsTag(row[j].value)
    decreases |row| - c
    ensures RangeCells(row, s, r, c) == "" && StaticCells(row, s, r, c) == ""
  {
    if c < |row| {
      NoTagsCells(row, s, r, c + 1);
    }
  }

  lemma {:induction false} NoTagsRows(sheet: Sheet, s: nat, r: nat)
    requires NoTagsFrom(sheet, r)
    decreases |sheet| - r
    ensures RangeRows(sheet, s, r) == "" && StaticRows(sheet, s, r) == ""
  {
    if r < |sheet| {
      NoTagsCells(sheet[r], s, r, 0);
      NoTagsRows(sheet, s, r + 1);
    }
  }

  lemma {:induction false} NoTagsSheets(g: seq<Sheet>, s: nat)
    requires NoTags(g, s)
    decreases |g| - s
    ensures RangeSheets(g, s) == "" && StaticSheets(g, s) == ""
  {
    if s < |g| {
      NoTagsRows(g[s], s, 0);
      NoTagsSheets(g, s + 1);
    }
  }

  /** Sheets without placeholders hand the evaluator nothing to render. */
  lemma NoTagsNoBlobs(g: seq<Sheet>)
    requires NoTags(g, 0)
    ensures RangeBlob(g) == "" && StaticBlob(g) == ""
  {
    NoTagsSheets(g, 0);
  }

  // ---------------------------------------------------------------------
  // The range line of a row is what parseRangeLine reads

  /** The assignments of the placeholder cells of a row from cell c on. */
  function TagEntries(row: Row, c: nat): (es: seq<Entry>)
    decreases |row| - c
  {
    if c >= |row| then []
    else if IsTag(row[c].value) then [Entry(row[c].value, c)] + TagEntries(row, c + 1)
    else TagEntries(row, c + 1)
  }

  /** A row part with neither a range cell nor an end cell. */
  predicate Inner(row: Row, c: nat) {
    forall j :: c <= j < |row| ==> !IsRangeCell(row[j].value) && !IsEndCell(row[j].value)
  }

  /** Inside a range row, the scanner writes one assignment per placeholder,
      in column order. */
  lemma {:induction false} InnerCellsEncode(row: Row, s: nat, r: nat, c: nat)
    requires Inner(row, c)
    decreases |row| - c
    ensures RangeCells(row, s, r, c) == EncodeEntries(TagEntries(row, c))
  {
    if c < |row| {
      InnerCellsEncode(row, s, r, c + 1);
      RangeCellsStep(row, s, r, c);
      if IsTag(row[c].value) {
        assert RangeCell(row[c].value, s, r, c) == Assignment(row[c].value, c);
        var es := TagEntries(row, c);
        assert es[1..] == TagEntries(row, c + 1);
      }
    }
  }

  /** When the evaluator leaves a row's placeholders as they are and their
      texts are readable, parseRangeLine gives each placeholder's column its
      text: the range line is read back cell by cell. */
  lemma {:induction false} InnerRowReadBack(layout: Layout, row: Row, s: nat, r: nat)
    requires Inner(row, 0) && |row| <= MaxInt64
    requires forall j :: 0 <= j < |row| && IsTag(row[j].value) ==> Readable(layout, row[j].value)
    ensures Assign(layout, RangeCells(row, s, r, 0), map[]) == Ok(Collect(TagEntries(row, 0), map[]))
  {
    InnerCellsEncode(row, s, r, 0);
    TagEntriesFrom(row, 0);
    var es := TagEntries(row, 0);
    assert !Contains("", "<<");
    assert EncodeEntries(es) + "" == EncodeEntries(es);
    AssignRoundTrip(layout, es, "", map[]);
  }

  lemma {:induction false} TagEntriesFrom(row: Row, c: nat)
    decreases |row| - c
    ensures forall k :: 0 <= k < |TagEntries(row, c)| ==>
      var e := TagEntries(row, c)[k];
      c <= e.col < |row| && e.text == row[e.col].value && IsTag(e.text)
  {
    if c < |row| {
      TagEntriesFrom(row, c + 1);
    }
  }

  // ---------------------------------------------------------------------
  // A whole range row

  /** No cell from c up to, but not including, e is a range or end cell. */
  predicate InnerBetween(row: Row, c: nat, e: nat) {
    forall j :: c <= j < e && j < |row| ==> !IsRangeCell(row[j].value) && !IsEndCell(row[j].value)
  }

  /** The assignments of the placeholder cells from cell c up to, but not
      including, cell e. */
  function TagEntriesUpTo(row: Row, c: nat, e: nat): seq<Entry>
    decreases e - c
  {
    if c >= e || c >= |row| then []
    else if IsTag(row[c].value) then [Entry(row[c].value, c)] + TagEntriesUpTo(row, c + 1, e)
    else TagEntriesUpTo(row, c + 1, e)
  }

  lemma {:induction false} TagEntriesUpToFrom(row: Row, c: nat, e: nat)
    decreases e - c
    ensures forall k :: 0 <= k < |TagEntriesUpTo(row, c, e)| ==>
      var en := TagEntriesUpTo(row, c, e)[k];
      c <= en.col < e && en.col < |row| && en.text == row[en.col].value && IsTag(en.text)
  {
    if c < e && c < |row| {
      TagEntriesUpToFrom(row, c + 1, e);
    }
  }

  /** A range row as templates write it: placeholder `a` opens the range,
      placeholder `e` ends it, no cell before `a` is a placeholder, and
      the placeholders between them are plain ones. */
  predicate RangeRowShape(row: Row, a: nat, e: nat) {
    a < e < |row| &&
    (forall j :: 0 <= j < a ==> !IsTag(row[j].value)) &&
    IsTag(row[a].value) && IsRangeCell(row[a].value) && !IsEndCell(row[a].value) &&
    InnerBetween(row, a + 1, e) &&
    IsTag(row[e].value) && IsEndCell(row[e].value) && !IsRangeCell(row[e].value)
  }

  /** The two-cell row `{{range .}}`, `{{end.}}` has the shape, so the
      lemmas about range rows below apply to real templates. */
  lemma RangeRowShapeMet()
    ensures RangeRowShape([Cell("{{range .}}", StringType, "general", 0, 0),
                           Cell("{{end.}}", StringType, "general", 0, 0)], 0, 1)
  {
    var open, end := "{{range .}}", "{{end.}}";
    assert OccursAt(open, "{{", 0) && OccursAt(open, "}}", 9) && OccursAt(open, "range", 2);
    assert OccursAt(end, "{{", 0) && OccursAt(end, "}}", 6) && OccursAt(end, "{{end.}}", 0);
    assert open[2] == 'r' && open[3] == 'a' && open[4] == 'n' && open[5] == 'g';
    assert forall j :: !OccursAt(open, "{{end.}}", j);
    assert end[0] == '{' && end[1] == '{' && end[2] == 'e' && end[3] == 'n';
    assert forall j :: !OccursAt(end, "range", j);
  }

  /** The end cell's text without its marker, as an entry when any is left. */
  function EndEntry(val: string, e: nat): seq<Entry> {
    var rest := ReplaceFirst(val, "{{end.}}", "");
    if |rest| > 0 then [Entry(rest, e)] else []
  }

  /** The entries of a range row: the range cell, the plain placeholders
      after it, and what is left of the end cell. */
  function RangeEntries(row: Row, a: nat, e: nat): seq<Entry>
    requires a < e < |row|
  {
    [Entry(row[a].value, a)] + TagEntriesUpTo(row, a + 1, e) + EndEntry(row[e].value, e)
  }

  /** The line between a range row's header and its closing line. */
  function RangeLine(row: Row, a: nat, e: nat): string
    requires a < e < |row|
  {
    Assignment(row[a].value, a) + EncodeEntries(TagEntriesUpTo(row, a + 1, e)) + EndText(row[e].value, e)
  }

  lemma {:induction false} EncodeAppend(x: seq<Entry>, y: seq<Entry>)
    decreases |x|
    ensures EncodeEntries(x + y) == EncodeEntries(x) + EncodeEntries(y)
  {
    if x == [] {
      assert x + y == y;
    } else {
      assert (x + y)[0] == x[0];
      assert (x + y)[1..] == x[1..] + y;
      EncodeAppend(x[1..], y);
    }
  }

  /** The cells before the first placeholder add nothing. */
  lemma {:induction false} SkipPlain(row: Row, s: nat, r: nat, c: nat, a: nat)
    requires c <= a < |row| && forall j :: c <= j < a ==> !IsTag(row[j].value)
    decreases a - c
    ensures RangeCells(row, s, r, c) == RangeCells(row, s, r, a)
  {
    if c < a {
      RangeCellsStep(row, s, r, c);
      SkipPlain(row, s, r, c + 1, a);
    }
  }

  /** When no cell from c up to `e` is a range or end cell, the scan of a
      row from c writes one assignment per placeholder before `e`, then
      whatever the scan from `e` writes. */
  lemma {:induction false} InnerUpToEncode(row: Row, s: nat, r: nat, c: nat, e: nat)
    requires c <= e < |row| && InnerBetween(row, c, e)
    decreases e - c
    ensures RangeCells(row, s, r, c) == EncodeEntries(TagEntriesUpTo(row, c, e)) + RangeCells(row, s, r, e)
  {
    if c < e {
      var tail := RangeCells(row, s, r, e);
      var rest := TagEntriesUpTo(row, c + 1, e);
      InnerUpToEncode(row, s, r, c + 1, e);
      RangeCellsStep(row, s, r, c);
      if IsTag(row[c].value) {
        var x := Assignment(row[c].value, c);
        assert RangeCell(row[c].value, s, r, c) == x;
        var es := TagEntriesUpTo(row, c, e);
        assert es[1..] == rest;
        assert EncodeEntries(es) == x + EncodeEntries(rest);
        Assoc(x, EncodeEntries(rest), tail);
      }
    }
  }

  /** An end cell that names no range adds its text and the closing line. */
  lemma RangeCellEnd(val: string, s: nat, r: nat, c: nat)
    requires IsEndCell(val) && !IsRangeCell(val)
    ensures RangeCell(val, s, r, c) == EndText(val, c) + Closing
  {
    assert HeadOf(val, s, r) == "";
  }

  /** What the end cell of a range row adds: its text without the marker,
      then the closing line. */
  lemma EndCellAdds(row: Row, s: nat, r: nat, e: nat)
    requires e < |row| && IsTag(row[e].value) && IsEndCell(row[e].value) && !IsRangeCell(row[e].value)
    ensures RangeCells(row, s, r, e) == EndText(row[e].value, e) + Closing
  {
    RangeCellsStep(row, s, r, e);
    RangeCellEnd(row[e].value, s, r, e);
  }

  /** What the cell opening a range row adds: the block header and its own
      assignment, before the rest of the row. */
  lemma OpenCellAdds(row: Row, s: nat, r: nat, a: nat)
    requires a < |row| && IsTag(row[a].value) && IsRangeCell(row[a].value) && !IsEndCell(row[a].value)
    ensures RangeCells(row, s, r, a) == Header(s, r) + Assignment(row[a].value, a) + RangeCells(row, s, r, a + 1)
  {
    assert RangeCells(row, s, r, a) == RangeCell(row[a].value, s, r, a) + RangeCells(row, s, r, a + 1);
  }

  /** A range row's scan is its block header, one line, and the closing
      line. */
  lemma RangeRowEncode(row: Row, s: nat, r: nat, a: nat, e: nat)
    requires RangeRowShape(row, a, e)
    ensures RangeCells(row, s, r, 0) == Header(s, r) + RangeLine(row, a, e) + Closing
  {
    SkipPlain(row, s, r, 0, a);
    OpenCellAdds(row, s, r, a);
    InnerUpToEncode(row, s, r, a + 1, e);
    EndCellAdds(row, s, r, e);
    Regroup(Header(s, r), Assignment(row[a].value, a), EncodeEntries(TagEntriesUpTo(row, a + 1, e)),
            EndText(row[e].value, e), Closing);
  }

  lemma Regroup(h: string, x: string, y: string, z: string, w: string)
    ensures h + x + (y + (z + w)) == h + (x + y + z) + w
  {
  }

  /** The line of a range row is the encoding of its entries. */
  lemma RangeLineEntries(row: Row, a: nat, e: nat)
    requires a < e < |row|
    ensures RangeLine(row, a, e) == EncodeEntries(RangeEntries(row, a, e))
  {
    var first := [Entry(row[a].value, a)];
    var mid := TagEntriesUpTo(row, a + 1, e);
    var last := EndEntry(row[e].value, e);
    EncodeAppend(first + mid, last);
    EncodeAppend(first, mid);
    assert EncodeEntries(first) == Assignment(row[a].value, a) + EncodeEntries([]);
    assert EncodeEntries(last) == EndText(row[e].value, e);
  }

  /** Every entry is readable and names a column below n. */
  predicate AllReadable(layout: Layout, es: seq<Entry>, n: nat) {
    forall k :: 0 <= k < |es| ==> Readable(layout, es[k].text) && es[k].col < n
  }

  lemma AllReadableAppend(layout: Layout, x: seq<Entry>, y: seq<Entry>, n: nat)
    requires AllReadable(layout, x, n) && AllReadable(layout, y, n)
    ensures AllReadable(layout, x + y, n)
  {
    forall k | 0 <= k < |x + y|
      ensures Readable(layout, (x + y)[k].text) && (x + y)[k].col < n
    {
      if k >= |x| {
        assert (x + y)[k] == y[k - |x|];
      }
    }
  }

  /** The plain placeholders of a row whose placeholders are readable. */
  lemma TagEntriesReadable(layout: Layout, row: Row, c: nat, e: nat)
    requires forall j :: 0 <= j < |row| && IsTag(row[j].value) ==> Readable(layout, row[j].value)
    ensures AllReadable(layout, TagEntriesUpTo(row, c, e), |row|)
  {
    TagEntriesUpToFrom(row, c, e);
  }

  /** What is left of a readable end cell is readable. */
  lemma EndEntryReadable(layout: Layout, val: string, e: nat, n: nat)
    requires Readable(layout, val) && e < n
    ensures AllReadable(layout, EndEntry(val, e), n)
  {
    ReplaceFirstLacks(val, "{{end.}}", '<');
    if layout == AsWritten {
      ReplaceFirstLacks(val, "{{end.}}", '>');
    }
  }

  /** The entries of a range row whose placeholders are readable are
      readable, and their columns are the row's. */
  lemma RangeEntriesReadable(layout: Layout, row: Row, a: nat, e: nat)
    requires a < e < |row| && IsTag(row[a].value) && IsTag(row[e].value)
    requires forall j :: 0 <= j < |row| && IsTag(row[j].value) ==> Readable(layout, row[j].value)
    ensures AllReadable(layout, RangeEntries(row, a, e), |row|)
  {
    var first := [Entry(row[a].value, a)];
    var mid := TagEntriesUpTo(row, a + 1, e);
    var last := EndEntry(row[e].value, e);
    TagEntriesReadable(layout, row, a + 1, e);
    EndEntryReadable(layout, row[e].value, e, |row|);
    AllReadableAppend(layout, first, mid, |row|);
    AllReadableAppend(layout, first + mid, last, |row|);
  }

  /** When the evaluator leaves a range row's placeholders as they are and
      their texts are readable, parseRangeLine reads the row's line back
      as its entries: the range cell's text under its column, each plain
      placeholder's under its own, and the end cell's text without the
      marker under the end column. */
  lemma RangeRowReadBack(layout: Layout, row: Row, a: nat, e: nat)
    requires RangeRowShape(row, a, e) && |row| <= MaxInt64
    requires forall j :: 0 <= j < |row| && IsTag(row[j].value) ==> Readable(layout, row[j].value)
    ensures Assign(layout, RangeLine(row, a, e), map[]) == Ok(Collect(RangeEntries(row, a, e), map[]))
  {
    RangeLineEntries(row, a, e);
    RangeEntriesReadable(layout, row, a, e);
    var es := RangeEntries(row, a, e);
    assert !Contains("", "<<");
    assert EncodeEntries(es) + "" == EncodeEntries(es);
    AssignRoundTrip(layout, es, "", map[]);
  }
}
