/** Template.Render (rbuilder.go:60-85) and its two passes: renderStatic
    (rbuilder.go:270-345) collects every placeholder outside range rows as
    a "##s:r:c##text" record, has the template engine evaluate the blob,
    and writes each evaluated record back into its cell; renderRange
    (rbuilder.go:87-259) collects the range rows, has them evaluated, and
    hands the lines to the reconciliation loop. The template engine with
    its data and function map is the parameter `eval`. */
module Render {
  import opened Outcomes
  import opened GoStrings
  import opened Codec
  import opened Grid
  import opened Scan
  import opened Reconcile

  /** text/template parsing and executing a blob with the caller's data;
      a failure of either is the failure Render returns. */
  type Evaluator = string -> Result<string>

  // ---------------------------------------------------------------------
  // renderStatic's write-back

  /** One evaluated line of the static blob: a line that is no record is
      skipped; a record is written into its cell. */
  function StaticStep(line: string, g: seq<Sheet>, p: Parsers): (res: Result<seq<Sheet>>)
    ensures !HasPrefix(line, "##") ==> res == Ok(g)
    ensures res.Ok? ==> |res.value| == |g|
  {
    Stored(ParseStaticLine(line), g, p)
  }

  /** A parsed line applied to the sheets: setValue for a record, whose
      lookup of sheet s, and Sheet.Cell with a negative row or column,
      panic; setValue's own result is always nil. */
  function Stored(parsed: Result<StaticLine>, g: seq<Sheet>, p: Parsers): (res: Result<seq<Sheet>>)
    ensures parsed == Ok(Skip) ==> res == Ok(g)
    ensures res.Ok? ==> |res.value| == |g|
  {
    match parsed
    case Err(e) => Err(e)
    case Ok(Skip) => Ok(g)
    case Ok(Store(s, r, c, text)) =>
      if !(0 <= s < |g| && r >= 0 && c >= 0) then Err(Panic)
      else Ok(g[s := Written(g[s], r, c, text, p)])
  }

  /** The write-back loop from line i on: its test ... */
  function StaticFrom(lines: seq<string>, i: nat, g: seq<Sheet>, p: Parsers): (res: Result<seq<Sheet>>)
    decreases |lines| - i, 1
    ensures res.Ok? ==> |res.value| == |g|
  {
    if i >= |lines| then Ok(g) else StaticTurn(lines, i, g, p)
  }

  /** ... and its body: line i is written back, and the first failure ends
      the loop. */
  function StaticTurn(lines: seq<string>, i: nat, g: seq<Sheet>, p: Parsers): (res: Result<seq<Sheet>>)
    requires i < |lines|
    decreases |lines| - i, 0
    ensures res.Ok? ==> |res.value| == |g|
  {
    match StaticStep(lines[i], g, p)
    case Err(e) => Err(e)
    case Ok(next) => StaticFrom(lines, i + 1, next, p)
  }

  /** The body of renderStatic's write-back loop for one evaluated line. */
  method WriteBack(report: Workbook, line: string, p: Parsers) returns (res: Outcome)
    modifies report
    ensures res.Fail? <==> StaticStep(line, old(report.sheets), p).Err?
    ensures res.Fail? ==> StaticStep(line, old(report.sheets), p) == Err(res.error)
    ensures res.Pass? ==> StaticStep(line, old(report.sheets), p) == Ok(report.sheets)
  {
    var parsed := ParseStaticLine(line);
    res := Store(report, parsed, p);
  }

  /** setValue for a parsed line that is a record. */
  method Store(report: Workbook, parsed: Result<StaticLine>, p: Parsers) returns (res: Outcome)
    modifies report
    ensures res.Fail? <==> Stored(parsed, old(report.sheets), p).Err?
    ensures res.Fail? ==> Stored(parsed, old(report.sheets), p) == Err(res.error)
    ensures res.Pass? ==> Stored(parsed, old(report.sheets), p) == Ok(report.sheets)
  {
    if parsed.Err? {
      return Fail(parsed.error);
    }
    res := Pass;
    if parsed.value.Store? {
      var rec := parsed.value;
      res := report.SetValue(rec.sheet, rec.row, rec.col, rec.text, p);
    }
  }

  /** The loop `for _, line := range lines` of renderStatic. */
  method ApplyStatic(report: Workbook, lines: seq<string>, p: Parsers) returns (res: Outcome)
    modifies report
    ensures res.Fail? <==> StaticFrom(lines, 0, old(report.sheets), p).Err?
    ensures res.Fail? ==> StaticFrom(lines, 0, old(report.sheets), p) == Err(res.error)
    ensures res.Pass? ==> StaticFrom(lines, 0, old(report.sheets), p) == Ok(report.sheets)
  {
    ghost var whole := StaticFrom(lines, 0, report.sheets, p);
    var i := 0;
    while i < |lines|
      invariant 0 <= i <= |lines|
      invariant whole == StaticFrom(lines, i, report.sheets, p)
    {
      res := WriteBack(report, lines[i], p);
      if res.Fail? {
        return;
      }
      i := i + 1;
    }
    res := Pass;
  }

  /** What renderStatic makes of the sheets `g`. */
  function StaticPass(g: seq<Sheet>, eval: Evaluator, p: Parsers): (res: Result<seq<Sheet>>)
    ensures |g| == 0 ==> res == Err(EmptyDocument)
    ensures res.Ok? ==> |res.value| == |g|
  {
    if |g| == 0 then Err(EmptyDocument)
    else
      match eval(StaticBlob(g))
      case Err(e) => Err(e)
      case Ok(out) => StaticFrom(Split(out, TagSeparator), 0, g, p)
  }

  /** renderStatic (rbuilder.go:270-345). */
  method RenderStatic(report: Workbook, eval: Evaluator, p: Parsers) returns (res: Outcome)
    modifies report
    ensures res.Fail? <==> StaticPass(old(report.sheets), eval, p).Err?
    ensures res.Fail? ==> StaticPass(old(report.sheets), eval, p) == Err(res.error)
    ensures res.Pass? ==> StaticPass(old(report.sheets), eval, p) == Ok(report.sheets)
  {
    if |report.sheets| == 0 {
      return Fail(EmptyDocument);
    }
    var tags := ScanStatic(report.sheets);
    var out := eval(tags);
    if out.Err? {
      return Fail(out.error);
    }
    var lines := Split(out.value, TagSeparator);
    res := ApplyStatic(report, lines, p);
  }

  // ---------------------------------------------------------------------
  // renderRange and Render

  /** What renderRange makes of the sheets `g`. */
  ghost function RangePass(layout: Layout, g: seq<Sheet>, eval: Evaluator, p: Parsers): (res: Result<seq<Sheet>>)
    ensures res.Ok? ==> |res.value| == |g|
  {
    match eval(RangeBlob(g))
    case Err(e) => Err(e)
    case Ok(out) => ReconcileFrom(layout, Split(out, TagSeparator), 0, g, map[], p)
  }

  /** renderRange (rbuilder.go:87-259). */
  method RenderRange(report: Workbook, layout: Layout, eval: Evaluator, p: Parsers) returns (res: Outcome)
    modifies report
    ensures res.Fail? <==> RangePass(layout, old(report.sheets), eval, p).Err?
    ensures res.Fail? ==> RangePass(layout, old(report.sheets), eval, p) == Err(res.error)
    ensures res.Pass? ==> RangePass(layout, old(report.sheets), eval, p) == Ok(report.sheets)
  {
    var tags := ScanRange(report.sheets);
    var out := eval(tags);
    if out.Err? {
      return Fail(out.error);
    }
    var lines := Split(out.value, TagSeparator);
    res := Reconcile.Reconcile(report, layout, lines, p);
  }

  /** What Render makes of a template's sheets: the static pass, then the
      range pass on its result. */
  ghost function RenderOf(layout: Layout, g: seq<Sheet>, eval: Evaluator, p: Parsers): (res: Result<seq<Sheet>>)
    ensures res.Ok? ==> |res.value| == |g|
  {
    match StaticPass(g, eval, p)
    case Err(e) => Err(e)
    case Ok(g') => RangePass(layout, g', eval, p)
  }

  /** Template.Render (rbuilder.go:60-85): the report is a new workbook
      copied from the template, which itself stays as it was. */
  method Render(template: Workbook, layout: Layout, eval: Evaluator, p: Parsers) returns (report: Workbook, res: Outcome)
    ensures fresh(report)
    ensures res.Fail? <==> RenderOf(layout, template.sheets, eval, p).Err?
    ensures res.Fail? ==> RenderOf(layout, template.sheets, eval, p) == Err(res.error)
    ensures res.Pass? ==> RenderOf(layout, template.sheets, eval, p) == Ok(report.sheets)
  {
    report := new Workbook(template.sheets);
    res := RenderStatic(report, eval, p);
    if res.Fail? {
      return;
    }
    res := RenderRange(report, layout, eval, p);
  }

  // ---------------------------------------------------------------------
  // Properties

  /** Every record renderStatic writes for a cell of an existing sheet is
      written back into that very cell, whatever text it carries. */
  lemma StaticRecordWritesBack(s: nat, r: nat, c: nat, text: string, g: seq<Sheet>, p: Parsers)
    requires s < |g| && s <= MaxInt64 && r <= MaxInt64 && c <= MaxInt64
    ensures StaticStep(StaticRecord(s, r, c, text), g, p) == Ok(g[s := Written(g[s], r, c, text, p)])
  {
    StaticRecordRoundTrip(s, r, c, text);
  }

  /** Evaluated lines that are no records leave the sheets as they were. */
  lemma {:induction false} NoRecordsNoChange(lines: seq<string>, i: nat, g: seq<Sheet>, p: Parsers)
    requires forall j :: i <= j < |lines| ==> !HasPrefix(lines[j], "##")
    decreases |lines| - i
    ensures StaticFrom(lines, i, g, p) == Ok(g)
  {
    if i < |lines| {
      assert StaticFrom(lines, i, g, p) == StaticTurn(lines, i, g, p);
      NoRecordsNoChange(lines, i + 1, g, p);
    }
  }

  /** A template without placeholders, whose empty blobs the engine leaves
      empty, renders to a copy of itself, whatever the layout. */
  lemma RenderWithoutPlaceholders(layout: Layout, g: seq<Sheet>, eval: Evaluator, p: Parsers)
    requires |g| > 0 && NoTags(g, 0) && eval("") == Ok("")
    ensures RenderOf(layout, g, eval, p) == Ok(g)
  {
    NoTagsNoBlobs(g);
    var lines := Split("", TagSeparator);
    assert lines == [""];
    NoRecordsNoChange(lines, 0, g, p);
    assert StaticPass(g, eval, p) == Ok(g);
    assert !HasPrefix(lines[0], BeginPrefix);
    assert ReconcileFrom(layout, lines, 1, g, map[], p) == Ok(g);
  }
}
