/** The merge pass of the example program (mergeCells): after rendering, a
    cell whose text starts with "<<" opens a region, the next cell holding
    ">>" closes it, and the opening cell is merged over the rectangle
    between the two. One open flag and one start position serve the whole
    workbook, so a region left open at the end of a sheet is closed on a
    later sheet. */
module Merge {
  import opened Outcomes
  import opened GoStrings
  import opened Grid

  /** The pass's state: whether a region is open and the row and column of
      its opening cell (`b`, `br`, `bc`). */
  datatype Region = Region(open: bool, br: nat, bc: nat)

  const Closed: Region := Region(false, 0, 0)

  /** A cell that opens a region: its text starts with "<<". */
  predicate Opens(val: string) {
    Index(val, "<<") == 0
  }

  /** A cell that closes a region: its text holds ">>". */
  predicate Closes(val: string) {
    Contains(val, ">>")
  }

  /** Cell.Merge(h, v): the cell records the horizontal and vertical spans. */
  function MergeCell(cell: Cell, h: int, v: int): Cell {
    cell.(hMerge := h, vMerge := v)
  }

  /** The sheets from position (s, r, c) on, the pass being in state `st`:
      the result of the rest of the walk, or a panic when a region opened on
      an earlier sheet names a cell the current sheet does not have. */
  function MergeFrom(g: seq<Sheet>, s: nat, r: nat, c: nat, st: Region): Result<seq<Sheet>>
    decreases |g| - s, if s < |g| then |g[s]| - r else 0,
      if s < |g| && r < |g[s]| then |g[s][r]| - c else 0
  {
    if s >= |g| then Ok(g)
    else if r >= |g[s]| then MergeFrom(g, s + 1, 0, 0, st)
    else if c >= |g[s][r]| then MergeFrom(g, s, r + 1, 0, st)
    else
      var cell := g[s][r][c];
      if !st.open then
        if !Opens(cell.value) then MergeFrom(g, s, r, c + 1, st)
        else
          IndexZeroIsPrefix(cell.value, "<<");
          var g' := g[s := g[s][r := g[s][r][c := cell.(value := cell.value[2..])]]];
          MergeFrom(g', s, r, c + 1, Region(true, r, c))
      else if !Closes(cell.value) then MergeFrom(g, s, r, c + 1, st)
      else if !(st.br < |g[s]| && st.bc < |g[s][st.br]|) then Err(Panic)
      else
        var start := g[s][st.br][st.bc];
        var g' := g[s := g[s][st.br := g[s][st.br][st.bc := MergeCell(start, c - st.bc, r - st.br)]]];
        MergeFrom(g', s, r, c + 1, st.(open := false))
  }

  /** mergeCells (example/main.go:69-119) on the rendered workbook. A panic
      ends the pass with the cells written so far. */
  method MergeCells(report: Workbook) returns (res: Outcome)
    modifies report
    ensures res.Fail? <==> MergeFrom(old(report.sheets), 0, 0, 0, Closed).Err?
    ensures res.Fail? ==> res.error == Panic
    ensures res.Pass? ==> MergeFrom(old(report.sheets), 0, 0, 0, Closed) == Ok(report.sheets)
  {
    ghost var whole := MergeFrom(report.sheets, 0, 0, 0, Closed);
    ghost var g0 := report.sheets;
    var br: nat, bc: nat := 0, 0;
    var b := false;
    var s := 0;
    while s < |report.sheets|
      invariant SameShape(g0, report.sheets)
      invariant 0 <= s <= |report.sheets|
      invariant whole == MergeFrom(report.sheets, s, 0, 0, Region(b, br, bc))
      decreases |g0| - s
    {
      var r := 0;
      while r < |report.sheets[s]|
        invariant SameShape(g0, report.sheets)
        invariant s < |report.sheets| && 0 <= r <= |report.sheets[s]|
        invariant whole == MergeFrom(report.sheets, s, r, 0, Region(b, br, bc))
        decreases |g0[s]| - r
      {
        var c := 0;
        while c < |report.sheets[s][r]|
          invariant SameShape(g0, report.sheets)
          invariant s < |report.sheets| && r < |report.sheets[s]| && 0 <= c <= |report.sheets[s][r]|
          invariant whole == MergeFrom(report.sheets, s, r, c, Region(b, br, bc))
          decreases |g0[s][r]| - c
        {
          var val := report.sheets[s][r][c].value;
          if !b {
            if Index(val, "<<") != 0 {
              c := c + 1;
              continue;
            }
            IndexZeroIsPrefix(val, "<<");
            br, bc, b := r, c, true;
            var cell := report.sheets[s][r][c].(value := val[2..]);
            report.sheets := report.sheets[s := report.sheets[s][r := report.sheets[s][r][c := cell]]];
            c := c + 1;
            continue;
          }
          if !Contains(val, ">>") {
            c := c + 1;
            continue;
          }
          if !(br < |report.sheets[s]| && bc < |report.sheets[s][br]|) {
            return Fail(Panic);
          }
          var start := MergeCell(report.sheets[s][br][bc], c - bc, r - br);
          report.sheets := report.sheets[s := report.sheets[s][br := report.sheets[s][br][bc := start]]];
          b := false;
          c := c + 1;
        }
        r := r + 1;
      }
      s := s + 1;
    }
    res := Pass;
  }

  // ---------------------------------------------------------------------
  // What the pass may change

  predicate SameShape(g0: seq<Sheet>, g: seq<Sheet>) {
    |g| == |g0| &&
    forall s :: 0 <= s < |g0| ==> (|g[s]| == |g0[s]| &&
      forall r :: 0 <= r < |g0[s]| ==> |g[s][r]| == |g0[s][r]|)
  }

  /** No cell of the sheets holds ">>". */
  predicate NoCloser(g: seq<Sheet>) {
    forall s, r, c :: 0 <= s < |g| && 0 <= r < |g[s]| && 0 <= c < |g[s][r]| ==> !Closes(g[s][r][c].value)
  }

  /** What the pass may do to one cell: its text stays, or loses the "<<" it
      starts with; its type and format stay; and its spans stay unless some
      cell closes a region. */
  predicate CellAllowed(before: Cell, after: Cell, noCloser: bool) {
    (after.value == before.value || (Opens(before.value) && |before.value| >= 2 && after.value == before.value[2..])) &&
    after.kind == before.kind && after.numFmt == before.numFmt &&
    (noCloser ==> after.hMerge == before.hMerge && after.vMerge == before.vMerge)
  }

  predicate Allowed(g0: seq<Sheet>, g: seq<Sheet>, noCloser: bool)
    requires SameShape(g0, g)
  {
    forall s, r, c :: 0 <= s < |g0| && 0 <= r < |g0[s]| && 0 <= c < |g0[s][r]| ==>
      CellAllowed(g0[s][r][c], g[s][r][c], noCloser)
  }

  /** Position (s', r', c') comes at or after (s, r, c) in the walk. */
  predicate AtOrAfter(s': nat, r': nat, c': nat, s: nat, r: nat, c: nat) {
    s' > s || (s' == s && (r' > r || (r' == r && c' >= c)))
  }

  /** The texts of the cells the walk has not reached are the original ones. */
  predicate TextsFrom(g0: seq<Sheet>, g: seq<Sheet>, s: nat, r: nat, c: nat)
    requires SameShape(g0, g)
  {
    forall s', r', c' ::
      0 <= s' < |g0| && 0 <= r' < |g0[s']| && 0 <= c' < |g0[s'][r']| && AtOrAfter(s', r', c', s, r, c) ==>
        g[s'][r'][c'].value == g0[s'][r'][c'].value
  }

  /** Dropping the "<<" of the cell the walk stands on keeps the three
      invariants, the walk moving one cell on. */
  lemma StripKeeps(g0: seq<Sheet>, g: seq<Sheet>, s: nat, r: nat, c: nat)
    requires SameShape(g0, g) && Allowed(g0, g, NoCloser(g0)) && TextsFrom(g0, g, s, r, c)
    requires s < |g| && r < |g[s]| && c < |g[s][r]| && Opens(g[s][r][c].value)
    ensures |g[s][r][c].value| >= 2
    ensures var g' := g[s := g[s][r := g[s][r][c := g[s][r][c].(value := g[s][r][c].value[2..])]]];
      SameShape(g0, g') && Allowed(g0, g', NoCloser(g0)) && TextsFrom(g0, g', s, r, c + 1)
  {
    IndexZeroIsPrefix(g[s][r][c].value, "<<");
    var g' := g[s := g[s][r := g[s][r][c := g[s][r][c].(value := g[s][r][c].value[2..])]]];
    assert g[s][r][c].value == g0[s][r][c].value;
    forall s': int, r': int, c': int | 0 <= s' < |g0| && 0 <= r' < |g0[s']| && 0 <= c' < |g0[s'][r']|
      ensures CellAllowed(g0[s'][r'][c'], g'[s'][r'][c'], NoCloser(g0))
    {
      if (s', r', c') != (s, r, c) {
        assert g'[s'][r'][c'] == g[s'][r'][c'];
      }
    }
  }

  /** Recording the spans on the opening cell keeps the three invariants
      when some cell closes a region. */
  lemma CloseKeeps(g0: seq<Sheet>, g: seq<Sheet>, s: nat, r: nat, c: nat, br: nat, bc: nat, h: int, v: int)
    requires SameShape(g0, g) && Allowed(g0, g, NoCloser(g0)) && TextsFrom(g0, g, s, r, c)
    requires s < |g| && r < |g[s]| && c < |g[s][r]| && Closes(g[s][r][c].value)
    requires br < |g[s]| && bc < |g[s][br]|
    ensures var g' := g[s := g[s][br := g[s][br][bc := MergeCell(g[s][br][bc], h, v)]]];
      SameShape(g0, g') && Allowed(g0, g', NoCloser(g0)) && TextsFrom(g0, g', s, r, c + 1)
  {
    assert g[s][r][c].value == g0[s][r][c].value;
    assert !NoCloser(g0);
    var next := g[s := g[s][br := g[s][br][bc := MergeCell(g[s][br][bc], h, v)]]];
    forall s': int, r': int, c': int | 0 <= s' < |g0| && 0 <= r' < |g0[s']| && 0 <= c' < |g0[s'][r']|
      ensures CellAllowed(g0[s'][r'][c'], next[s'][r'][c'], NoCloser(g0))
    {
      if (s', r', c') != (s, br, bc) {
        assert next[s'][r'][c'] == g[s'][r'][c'];
      }
    }
  }

  /** The texts the walk has not reached are still unreached further on. */
  lemma TextsLater(g0: seq<Sheet>, g: seq<Sheet>, s: nat, r: nat, c: nat, s2: nat, r2: nat, c2: nat)
    requires SameShape(g0, g) && TextsFrom(g0, g, s, r, c) && AtOrAfter(s2, r2, c2, s, r, c)
    ensures TextsFrom(g0, g, s2, r2, c2)
  {
  }

  /** A finished pass kept the shape of `g0` and changed only what it may. */
  predicate Kept(g0: seq<Sheet>, res: Result<seq<Sheet>>) {
    res.Ok? ==> SameShape(g0, res.value) && Allowed(g0, res.value, NoCloser(g0))
  }

  lemma {:induction false} MergeFromAllowed(g0: seq<Sheet>, g: seq<Sheet>, s: nat, r: nat, c: nat, st: Region)
    requires SameShape(g0, g) && Allowed(g0, g, NoCloser(g0)) && TextsFrom(g0, g, s, r, c)
    decreases |g| - s, if s < |g| then |g[s]| - r else 0,
      if s < |g| && r < |g[s]| then |g[s][r]| - c else 0, 1
    ensures Kept(g0, MergeFrom(g, s, r, c, st))
  {
    if s >= |g| {
    } else if r >= |g[s]| {
      TextsLater(g0, g, s, r, c, s + 1, 0, 0);
      MergeFromAllowed(g0, g, s + 1, 0, 0, st);
    } else if c >= |g[s][r]| {
      TextsLater(g0, g, s, r, c, s, r + 1, 0);
      MergeFromAllowed(g0, g, s, r + 1, 0, st);
    } else if !st.open {
      if !Opens(g[s][r][c].value) {
        TextsLater(g0, g, s, r, c, s, r, c + 1);
        MergeFromAllowed(g0, g, s, r, c + 1, st);
      } else {
        StripAllowed(g0, g, s, r, c, st);
      }
    } else if !Closes(g[s][r][c].value) {
      TextsLater(g0, g, s, r, c, s, r, c + 1);
      MergeFromAllowed(g0, g, s, r, c + 1, st);
    } else if st.br < |g[s]| && st.bc < |g[s][st.br]| {
      CloseAllowed(g0, g, s, r, c, st);
    }
  }

  /** The step that opens a region at (s, r, c). */
  lemma {:induction false} StripAllowed(g0: seq<Sheet>, g: seq<Sheet>, s: nat, r: nat, c: nat, st: Region)
    requires SameShape(g0, g) && Allowed(g0, g, NoCloser(g0)) && TextsFrom(g0, g, s, r, c)
    requires s < |g| && r < |g[s]| && c < |g[s][r]| && Opens(g[s][r][c].value) && !st.open
    decreases |g| - s, |g[s]| - r, |g[s][r]| - c, 0
    ensures Kept(g0, MergeFrom(g, s, r, c, st))
  {
    var cell := g[s][r][c];
    StripKeeps(g0, g, s, r, c);
    var g' := g[s := g[s][r := g[s][r][c := cell.(value := cell.value[2..])]]];
    assert MergeFrom(g, s, r, c, st) == MergeFrom(g', s, r, c + 1, Region(true, r, c));
    MergeFromAllowed(g0, g', s, r, c + 1, Region(true, r, c));
  }

  /** The walk at a cell that closes the open region `st`. */
  lemma CloseStep(g: seq<Sheet>, s: nat, r: nat, c: nat, st: Region)
    requires s < |g| && r < |g[s]| && c < |g[s][r]| && Closes(g[s][r][c].value)
    requires st.open && st.br < |g[s]| && st.bc < |g[s][st.br]|
    ensures var start := g[s][st.br][st.bc];
      var g' := g[s := g[s][st.br := g[s][st.br][st.bc := MergeCell(start, c - st.bc, r - st.br)]]];
      MergeFrom(g, s, r, c, st) == MergeFrom(g', s, r, c + 1, st.(open := false))
  {
  }

  /** The step that closes the region `st` at (s, r, c). */
  lemma {:induction false} CloseAllowed(g0: seq<Sheet>, g: seq<Sheet>, s: nat, r: nat, c: nat, st: Region)
    requires SameShape(g0, g) && Allowed(g0, g, NoCloser(g0)) && TextsFrom(g0, g, s, r, c)
    requires s < |g| && r < |g[s]| && c < |g[s][r]| && Closes(g[s][r][c].value)
    requires st.open && st.br < |g[s]| && st.bc < |g[s][st.br]|
    decreases |g| - s, |g[s]| - r, |g[s][r]| - c, 0
    ensures Kept(g0, MergeFrom(g, s, r, c, st))
  {
    var start := g[s][st.br][st.bc];
    CloseKeeps(g0, g, s, r, c, st.br, st.bc, c - st.bc, r - st.br);
    var g' := g[s := g[s][st.br := g[s][st.br][st.bc := MergeCell(start, c - st.bc, r - st.br)]]];
    CloseStep(g, s, r, c, st);
    MergeFromAllowed(g0, g', s, r, c + 1, st.(open := false));
  }

  /** The pass keeps every sheet's shape; it writes a cell's text only to
      drop the "<<" the text starts with, never touches types or formats,
      and changes no span when no cell holds ">>". */
  lemma MergeCellsAllowed(g: seq<Sheet>)
    ensures MergeFrom(g, 0, 0, 0, Closed).Ok? ==>
      var t := MergeFrom(g, 0, 0, 0, Closed).value;
      SameShape(g, t) && Allowed(g, t, NoCloser(g))
  {
    MergeFromAllowed(g, g, 0, 0, 0, Closed);
  }

  /** No cell starts with "<<". */
  predicate NoOpener(g: seq<Sheet>) {
    forall s, r, c :: 0 <= s < |g| && 0 <= r < |g[s]| && 0 <= c < |g[s][r]| ==> !Opens(g[s][r][c].value)
  }

  lemma {:induction false} NoOpenerFrom(g: seq<Sheet>, s: nat, r: nat, c: nat)
    requires NoOpener(g)
    decreases |g| - s, if s < |g| then |g[s]| - r else 0,
      if s < |g| && r < |g[s]| then |g[s][r]| - c else 0
    ensures MergeFrom(g, s, r, c, Closed) == Ok(g)
  {
    if s >= |g| {
    } else if r >= |g[s]| {
      NoOpenerFrom(g, s + 1, 0, 0);
    } else if c >= |g[s][r]| {
      NoOpenerFrom(g, s, r + 1, 0);
    } else {
      NoOpenerFrom(g, s, r, c + 1);
    }
  }

  /** Without an opening cell the pass changes nothing and cannot panic. */
  lemma NoOpenerNoChange(g: seq<Sheet>)
    requires NoOpener(g)
    ensures MergeFrom(g, 0, 0, 0, Closed) == Ok(g)
  {
    NoOpenerFrom(g, 0, 0, 0);
  }

  lemma {:induction false} OneSheetFrom(g: seq<Sheet>, s: nat, r: nat, c: nat, st: Region)
    requires |g| == 1
    requires s == 0 && st.open ==> st.br < |g[0]| && st.bc < |g[0][st.br]|
    decreases |g| - s, if s < |g| then |g[s]| - r else 0,
      if s < |g| && r < |g[s]| then |g[s][r]| - c else 0
    ensures MergeFrom(g, s, r, c, st).Ok?
  {
    if s >= |g| {
    } else if r >= |g[s]| {
      OneSheetFrom(g, s + 1, 0, 0, st);
    } else if c >= |g[s][r]| {
      OneSheetFrom(g, s, r + 1, 0, st);
    } else {
      var cell := g[s][r][c];
      if !st.open {
        if !Opens(cell.value) {
          OneSheetFrom(g, s, r, c + 1, st);
        } else {
          IndexZeroIsPrefix(cell.value, "<<");
          var g' := g[s := g[s][r := g[s][r][c := cell.(value := cell.value[2..])]]];
          OneSheetFrom(g', s, r, c + 1, Region(true, r, c));
        }
      } else if !Closes(cell.value) {
        OneSheetFrom(g, s, r, c + 1, st);
      } else {
        var start := g[s][st.br][st.bc];
        var g' := g[s := g[s][st.br := g[s][st.br][st.bc := MergeCell(start, c - st.bc, r - st.br)]]];
        OneSheetFrom(g', s, r, c + 1, st.(open := false));
      }
    }
  }

  /** On a workbook of one sheet the pass never panics: a region always
      closes on the sheet that opened it. */
  lemma OneSheetNeverPanics(g: seq<Sheet>)
    requires |g| == 1
    ensures MergeFrom(g, 0, 0, 0, Closed).Ok?
  {
    OneSheetFrom(g, 0, 0, 0, Closed);
  }

  // ---------------------------------------------------------------------
  // An open region

  /** No cell at or after (s, r, c) holds ">>". */
  predicate NoCloserFrom(g: seq<Sheet>, s: nat, r: nat, c: nat) {
    forall s', r', c' ::
      0 <= s' < |g| && 0 <= r' < |g[s']| && 0 <= c' < |g[s'][r']| && AtOrAfter(s', r', c', s, r, c) ==>
        !Closes(g[s'][r'][c'].value)
  }

  /** A region still open when no cell closes it any more merges nothing:
      the rest of the walk skips every cell, openers included, and leaves
      the sheets as they are. */
  lemma {:induction false} UnclosedRegionFrom(g: seq<Sheet>, s: nat, r: nat, c: nat, st: Region)
    requires st.open && NoCloserFrom(g, s, r, c)
    decreases |g| - s, if s < |g| then |g[s]| - r else 0,
      if s < |g| && r < |g[s]| then |g[s][r]| - c else 0
    ensures MergeFrom(g, s, r, c, st) == Ok(g)
  {
    if s >= |g| {
    } else if r >= |g[s]| {
      UnclosedRegionFrom(g, s + 1, 0, 0, st);
    } else if c >= |g[s][r]| {
      UnclosedRegionFrom(g, s, r + 1, 0, st);
    } else {
      UnclosedRegionFrom(g, s, r, c + 1, st);
    }
  }

  /** Cell (r', c') of a sheet comes strictly before cell (r, c) of it. */
  predicate Before(r': nat, c': nat, r: nat, c: nat) {
    r' < r || (r' == r && c' < c)
  }

  /** No cell of sheet s from (r, c) up to, but not including, (r2, c2)
      holds ">>". */
  predicate NoCloserBetween(g: seq<Sheet>, s: nat, r: nat, c: nat, r2: nat, c2: nat)
    requires s < |g|
  {
    forall r', c' :: 0 <= r' < |g[s]| && 0 <= c' < |g[s][r']| && !Before(r', c', r, c) && Before(r', c', r2, c2) ==>
      !Closes(g[s][r'][c'].value)
  }

  /** While a region is open, the walk passes every cell that does not
      close it, an opener included, without changing anything. */
  lemma {:induction false} OpenRegionSkips(g: seq<Sheet>, s: nat, r: nat, c: nat, r2: nat, c2: nat, st: Region)
    requires st.open && s < |g| && r2 < |g[s]| && c2 < |g[s][r2]| && !Before(r2, c2, r, c)
    requires NoCloserBetween(g, s, r, c, r2, c2)
    decreases |g[s]| - r, if r < |g[s]| then |g[s][r]| - c else 0
    ensures MergeFrom(g, s, r, c, st) == MergeFrom(g, s, r2, c2, st)
  {
    if r == r2 && c == c2 {
    } else if c >= |g[s][r]| {
      OpenRegionSkips(g, s, r + 1, 0, r2, c2, st);
    } else {
      OpenRegionSkips(g, s, r, c + 1, r2, c2, st);
    }
  }

  /** The first cell holding ">>" after an open region's start closes it:
      the start cell, if the sheet has it, gets the spans up to that cell
      and the walk goes on with no region open; if the sheet lacks the
      start cell, the pass panics. */
  lemma FirstCloserMerges(g: seq<Sheet>, s: nat, r: nat, c: nat, r2: nat, c2: nat, st: Region)
    requires st.open && s < |g| && r2 < |g[s]| && c2 < |g[s][r2]| && !Before(r2, c2, r, c)
    requires NoCloserBetween(g, s, r, c, r2, c2) && Closes(g[s][r2][c2].value)
    ensures st.br < |g[s]| && st.bc < |g[s][st.br]| ==>
      var start := g[s][st.br][st.bc];
      var g' := g[s := g[s][st.br := g[s][st.br][st.bc := MergeCell(start, c2 - st.bc, r2 - st.br)]]];
      MergeFrom(g, s, r, c, st) == MergeFrom(g', s, r2, c2 + 1, st.(open := false))
    ensures !(st.br < |g[s]| && st.bc < |g[s][st.br]|) ==> MergeFrom(g, s, r, c, st) == Err(Panic)
  {
    OpenRegionSkips(g, s, r, c, r2, c2, st);
    if st.br < |g[s]| && st.bc < |g[s][st.br]| {
      CloseStep(g, s, r2, c2, st);
    }
  }

  // ---------------------------------------------------------------------
  // Scenarios

  function Text(val: string): Cell {
    BlankCell.(value := val)
  }

  /** A header row "<<Total", "", "x>>": the first cell loses its marker and
      spans two more columns; the closing cell keeps its ">>". */
  lemma HeaderRowMerge()
    ensures MergeFrom([[[Text("<<Total"), Text(""), Text("x>>")]]], 0, 0, 0, Closed) ==
            Ok([[[Text("Total").(hMerge := 2, vMerge := 0), Text(""), Text("x>>")]]])
  {
    var g: seq<Sheet> := [[[Text("<<Total"), Text(""), Text("x>>")]]];
    assert "<<Total"[..2] == "<<";
    IndexZeroIsPrefix("<<Total", "<<");
    assert "<<Total"[2..] == "Total";
    var g1: seq<Sheet> := [[[Text("Total"), Text(""), Text("x>>")]]];
    assert g[0][0][0].(value := "<<Total"[2..]) == Text("Total");
    assert g[0][0][0 := Text("Total")] == g1[0][0];
    assert g[0][0 := g1[0][0]] == g1[0];
    assert g[0 := g1[0]] == g1;
    assert MergeFrom(g, 0, 0, 0, Closed) == MergeFrom(g1, 0, 0, 1, Region(true, 0, 0));
    assert !Closes("");
    assert MergeFrom(g1, 0, 0, 1, Region(true, 0, 0)) == MergeFrom(g1, 0, 0, 2, Region(true, 0, 0));
    assert "x>>"[1..3] == ">>";
    assert OccursAt("x>>", ">>", 1);
    var g2: seq<Sheet> := [[[Text("Total").(hMerge := 2, vMerge := 0), Text(""), Text("x>>")]]];
    assert g1[0][0][0 := MergeCell(g1[0][0][0], 2, 0)] == g2[0][0];
    assert g1[0][0 := g2[0][0]] == g2[0];
    assert g1[0 := g2[0]] == g2;
    assert MergeFrom(g1, 0, 0, 2, Region(true, 0, 0)) == MergeFrom(g2, 0, 0, 3, Closed);
    assert MergeFrom(g2, 0, 0, 3, Closed) == MergeFrom(g2, 0, 1, 0, Closed) == MergeFrom(g2, 1, 0, 0, Closed);
  }

  /** A region opened on one sheet and closed on the next merges the cell at
      the same row and column of the second sheet, and a start column the
      second sheet does not have makes the pass panic. */
  lemma RegionCrossesSheets()
    ensures MergeFrom([[[Text("<<A")]], [[Text("b"), Text("c>>")]]], 0, 0, 0, Closed) ==
            Ok([[[Text("A")]], [[Text("b").(hMerge := 1, vMerge := 0), Text("c>>")]]])
    ensures MergeFrom([[[Text("x"), Text("<<A")]], [[Text("c>>")]]], 0, 0, 0, Closed) == Err(Panic)
  {
    IndexZeroIsPrefix("<<A", "<<");
    assert "<<A"[..2] == "<<" && "<<A"[2..] == "A";
    assert "c>>"[1..3] == ">>";
    assert OccursAt("c>>", ">>", 1);
    IndexAbsent("b", ">>");
    IndexAbsent("b", "<<");
    IndexAbsent("x", "<<");

    var g: seq<Sheet> := [[[Text("<<A")]], [[Text("b"), Text("c>>")]]];
    var g1: seq<Sheet> := [[[Text("A")]], [[Text("b"), Text("c>>")]]];
    var g2: seq<Sheet> := [[[Text("A")]], [[Text("b").(hMerge := 1, vMerge := 0), Text("c>>")]]];
    assert g[0][0][0].(value := "<<A"[2..]) == Text("A");
    assert g[0][0][0 := Text("A")] == g1[0][0];
    assert g[0][0 := g1[0][0]] == g1[0];
    assert g[0 := g1[0]] == g1;
    assert MergeFrom(g, 0, 0, 0, Closed) == MergeFrom(g1, 0, 0, 1, Region(true, 0, 0));
    assert MergeFrom(g1, 0, 0, 1, Region(true, 0, 0)) == MergeFrom(g1, 1, 0, 0, Region(true, 0, 0));
    assert MergeFrom(g1, 1, 0, 0, Region(true, 0, 0)) == MergeFrom(g1, 1, 0, 1, Region(true, 0, 0));
    assert g1[1][0][0 := MergeCell(g1[1][0][0], 1, 0)] == g2[1][0];
    assert g1[1][0 := g2[1][0]] == g2[1];
    assert g1[1 := g2[1]] == g2;
    assert MergeFrom(g1, 1, 0, 1, Region(true, 0, 0)) == MergeFrom(g2, 1, 0, 2, Closed);
    assert MergeFrom(g2, 1, 0, 2, Closed) == MergeFrom(g2, 1, 1, 0, Closed) == MergeFrom(g2, 2, 0, 0, Closed);

    var h: seq<Sheet> := [[[Text("x"), Text("<<A")]], [[Text("c>>")]]];
    var h1: seq<Sheet> := [[[Text("x"), Text("A")]], [[Text("c>>")]]];
    assert MergeFrom(h, 0, 0, 0, Closed) == MergeFrom(h, 0, 0, 1, Closed);
    assert h[0][0][1].(value := "<<A"[2..]) == Text("A");
    assert h[0][0][1 := Text("A")] == h1[0][0];
    assert h[0][0 := h1[0][0]] == h1[0];
    assert h[0 := h1[0]] == h1;
    assert MergeFrom(h, 0, 0, 1, Closed) == MergeFrom(h1, 0, 0, 2, Region(true, 0, 1));
    assert MergeFrom(h1, 0, 0, 2, Region(true, 0, 1)) == MergeFrom(h1, 1, 0, 0, Region(true, 0, 1));
  }
}
